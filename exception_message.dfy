/**
 * The messages the REST layer sends: a simple translatable message (type, i18n
 * key, parameters and the translated text) and an ExceptionMessage, which also
 * records when and from which exception it was made, with the exception's name,
 * message and stack trace until those details are cleared.
 */
module ExceptionMessages {
  import opened Common
  import opened Exceptions

  datatype MessageType = ERROR | WARNING | INFORMATION

  /** The key an ExceptionMessage falls back to when the exception is no ApiException. */
  const UnknownServerErrorKey := "error.UnknownServerError"

  /** The exception-specific part of an ExceptionMessage; cleared details are None. */
  datatype Details = Details(dateTime: int, errorMessage: Option<string>, exceptionName: Option<string>, stacktrace: Option<string>)

  /**
   * A message as the response carries it: its type, key, parameters (None for a
   * null array), its translated text once set, and the details of an exception message.
   */
  datatype Msg = Msg(msgType: MessageType, key: string, parameters: Option<seq<Param>>, message: Option<string>, details: Option<Details>)

  /**
   * buildMessage: the text the MessageSource holds for the key with the
   * message's parameters; the key itself when no bundle holds it, and when
   * there is no MessageSource at all.
   */
  function BuildMessage(key: string, parameters: Option<seq<Param>>, ms: Option<Translator>): (r: string)
    ensures var ps := if parameters.Some? then parameters.value else [];
      (r == key || (ms.Some? && ms.value(key, ps) == Some(r)))
      && (ms.Some? && ms.value(key, ps).Some? ==> r == ms.value(key, ps).value)
      && (ms.None? || ms.value(key, ps).None? ==> r == key)
  {
    Translate(ms, key, if parameters.Some? then parameters.value else [])
  }

  /**
   * The message the response shows for an ApiException is the exception's own
   * getMessage: buildMessage and ApiException.getMessage ask the MessageSource
   * the same question with the same default.
   */
  lemma BuildMessageIsGetMessage(e: Exception, ms: Option<Translator>)
    requires e.Valid() && e.kind.IsApi()
    ensures Some(BuildMessage(KeyAndParams(e).0, KeyAndParams(e).1, ms)) == MessageOf(e, ms)
  {
  }

  /**
   * A MessageSource changes a message only through a bundle entry: the text
   * is the one without a MessageSource exactly when no bundle holds the key,
   * or the bundle's text is the key itself.
   */
  lemma TranslationNeedsEntry(key: string, parameters: Option<seq<Param>>, t: Translator)
    ensures var ps := if parameters.Some? then parameters.value else [];
      BuildMessage(key, parameters, Some(t)) == BuildMessage(key, parameters, None)
      <==> (t(key, ps).None? || t(key, ps) == Some(key))
  {
  }

  /**
   * The key and parameters ExceptionMessage(exception) starts from: those of an
   * ApiException, otherwise the unknown-server-error key with no parameters.
   */
  function KeyAndParams(e: Exception): (r: (string, Option<seq<Param>>))
    requires e.Valid()
    ensures e.kind.IsApi() ==> r == (e.api.value.i18nKey, e.api.value.params)
    ensures !e.kind.IsApi() ==> r == (UnknownServerErrorKey, Some([]))
  {
    if e.api.Some? then (e.api.value.i18nKey, e.api.value.params) else (UnknownServerErrorKey, Some([]))
  }

  /**
   * The state ExceptionMessage(exception) starts in: an ERROR message with the
   * exception's key and parameters, no translation yet, and the details of the
   * exception (name, message, stack trace) taken at the given time.
   */
  function NewMessage(e: Exception, now: int, trace: string, ms: Option<Translator>): (r: Msg)
    requires e.Valid()
    ensures r.msgType == ERROR && r.message.None? && r.details.Some?
    ensures e.kind.IsApi() ==> r.key == e.api.value.i18nKey && r.parameters == e.api.value.params
    ensures !e.kind.IsApi() ==> r.key == UnknownServerErrorKey && r.parameters == Some([])
    ensures r.details.value == Details(now, MessageOf(e, ms), Some(e.simpleName), Some(trace))
  {
    Msg(ERROR, KeyAndParams(e).0, KeyAndParams(e).1, None, Some(Details(now, MessageOf(e, ms), Some(e.simpleName), Some(trace))))
  }

  /** The state ExceptionMessage(exception, key, params) starts in: as NewMessage, with the given key and parameters. */
  function KeyedMessage(e: Exception, key: string, params: seq<Param>, now: int, trace: string, ms: Option<Translator>): (r: Msg)
    requires e.Valid()
    ensures r == NewMessage(e, now, trace, ms).(key := key, parameters := Some(params))
  {
    Msg(ERROR, key, Some(params), None, Some(Details(now, MessageOf(e, ms), Some(e.simpleName), Some(trace))))
  }

  /** The message with its exception details removed (key, parameters, text and time kept). */
  function Cleared(m: Msg): (r: Msg)
  {
    if m.details.None? then m
    else m.(details := Some(Details(m.details.value.dateTime, None, None, None)))
  }

  /** Clearing keeps everything a reader of the message sees except the details, and clearing twice changes nothing more. */
  lemma ClearedMeaning(m: Msg)
    ensures var r := Cleared(m);
      r.msgType == m.msgType && r.key == m.key && r.parameters == m.parameters && r.message == m.message
      && (r.details.Some? <==> m.details.Some?)
      && (r.details.Some? ==> r.details.value.dateTime == m.details.value.dateTime
                              && r.details.value.errorMessage.None? && r.details.value.exceptionName.None?
                              && r.details.value.stacktrace.None?)
      && Cleared(r) == r
  {
  }

  class ExceptionMessage {
    const msgType: MessageType
    var key: string
    var parameters: Option<seq<Param>>
    var message: Option<string>
    const dateTime: int
    const exception: Exception
    var errorMessage: Option<string>
    var exceptionName: Option<string>
    var stacktrace: Option<string>

    function Snapshot(): Msg
      reads this
    {
      Msg(msgType, key, parameters, message, Some(Details(dateTime, errorMessage, exceptionName, stacktrace)))
    }

    /**
     * ExceptionMessage(exception): an ERROR message keyed by the ApiException's
     * key and parameters, or by the unknown-server-error key. The clock reading,
     * the printed stack trace and the MessageSource behind getMessage are given.
     */
    constructor (exception: Exception, now: int, trace: string, ms: Option<Translator>)
      requires exception.Valid()
      ensures Snapshot() == NewMessage(exception, now, trace, ms)
      ensures this.exception == exception
    {
      msgType := ERROR;
      dateTime := now;
      this.exception := exception;
      key := UnknownServerErrorKey;
      parameters := Some([]);
      message := None;
      errorMessage := None;
      exceptionName := None;
      stacktrace := None;
      new;
      if exception.api.Some? {
        key := exception.api.value.i18nKey;
        parameters := exception.api.value.params;
      }
      ApplyValues(trace, ms);
    }

    /** ExceptionMessage(exception, key, params): an ERROR message with the given key and parameters. */
    constructor WithKey(exception: Exception, key: string, params: seq<Param>, now: int, trace: string, ms: Option<Translator>)
      requires exception.Valid()
      ensures Snapshot() == KeyedMessage(exception, key, params, now, trace, ms)
      ensures this.exception == exception
    {
      msgType := ERROR;
      dateTime := now;
      this.exception := exception;
      this.key := key;
      parameters := Some(params);
      message := None;
      errorMessage := None;
      exceptionName := None;
      stacktrace := None;
      new;
      ApplyValues(trace, ms);
    }

    /** applyValues: the exception's simple class name, its message and its printed stack trace. */
    method ApplyValues(trace: string, ms: Option<Translator>)
      requires exception.Valid()
      modifies this
      ensures exceptionName == Some(exception.simpleName) && errorMessage == MessageOf(exception, ms)
      ensures stacktrace == Some(trace)
      ensures key == old(key) && parameters == old(parameters) && message == old(message)
    {
      exceptionName := Some(exception.simpleName);
      errorMessage := MessageOf(exception, ms);
      stacktrace := Some(trace);
    }

    /** clearExceptionDetails: stack trace, error message and exception name become null. */
    method ClearExceptionDetails()
      modifies this
      ensures Snapshot() == Cleared(old(Snapshot()))
    {
      stacktrace := None;
      errorMessage := None;
      exceptionName := None;
    }

    method SetMessage(text: string)
      modifies this
      ensures Snapshot() == old(Snapshot()).(message := Some(text))
    {
      message := Some(text);
    }
  }
}
