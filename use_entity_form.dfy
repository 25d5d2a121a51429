/**
 * The entity form hook: optimistic field edits, a debounced PATCH queue that
 * drops unchanged keys and re-sends every field that currently shows an
 * error, and the mapping of the backend's answer onto field errors, field
 * states and global errors. Objects are maps from key to value; the order of
 * their keys does not change any result here.
 */
module UseEntityForm {
  import opened Common
  import opened Text

  /** A property value: undefined, null, a string, a number, a boolean, or an object or array compared by identity. */
  datatype Val = Undef | Null | Str(s: string) | Num(n: real) | Bool(b: bool) | Obj(id: nat)

  /** A Partial<T>: the keys an object has, each with its value (undefined included). */
  type Partial = map<string, Val>

  datatype StateType = SUCCESS | ERROR | UNDEFINED

  /** An entry of a backend error list, as it may arrive: a string, an object with optional key and message, or null. */
  datatype ErrorEntry = EStr(s: string) | EObj(key: Option<string>, message: Option<string>) | ENull

  /** One entry of Object.entries(reqErr.fields): the backend field name and its error list (null is None). */
  datatype FieldEntry = FieldEntry(backendKey: string, errors: Option<seq<ErrorEntry>>)

  datatype RequestError = RequestError(global: Option<seq<ErrorEntry>>, fields: Option<seq<FieldEntry>>)

  /** A PATCH or POST response: status "success" is true, the error and the data (null is None). */
  datatype Response = Response(success: bool, error: Option<RequestError>, data: Option<Partial>)

  /** How a request ends: with a response, or with an exception carrying an optional message. */
  datatype Outcome = Answered(response: Response) | Threw(message: Option<string>)

  /** The request the flush sends: a POST of the whole data in create mode, a PATCH of the queue otherwise. */
  datatype Request = CreateRequest(entity: Option<Partial>) | PatchRequest(uuid: string, patch: Partial)

  /** The optional callbacks of the hook's options. */
  datatype Config = Config(
    mapFieldKey: Option<string -> Option<string>>,
    toErrorMessage: Option<ErrorEntry -> string>,
    getRequestError: Option<Response -> Option<RequestError>>)

  const InvalidValue := "Ungültiger Wert"
  const AnotherFieldError := "Another field has an error."
  const PatchError := "Patch error"
  const CreateId := "create"

  /** The value of a key: undefined when the object does not have it. */
  function Get(obj: Partial, k: string): Val
  {
    if k in obj then obj[k] else Undef
  }

  /** A new value is the same as the old when strictly equal, or when both are strings equal after trimming. */
  predicate Same(newVal: Val, oldVal: Val)
  {
    newVal == oldVal || (newVal.Str? && oldVal.Str? && Trim(newVal.s) == Trim(oldVal.s))
  }

  /** The keys among ks whose new value differs from the current one, with their new values. */
  function ChangedAmong(partial: Partial, current: Partial, ks: set<string>): Partial
  {
    map k | k in ks && k in partial && !Same(partial[k], Get(current, k)) :: partial[k]
  }

  /** removeUnchanged: the edits that change something; every edit when no data is loaded. */
  function Changed(partial: Partial, current: Option<Partial>): Partial
  {
    if current.None? then partial else ChangedAmong(partial, current.value, partial.Keys)
  }

  /** removeUnchanged, key by key. */
  method RemoveUnchanged(partial: Partial, current: Option<Partial>) returns (result: Partial)
    ensures result == Changed(partial, current)
  {
    if current.None? {
      return partial;
    }
    result := map[];
    var todo := partial.Keys;
    while todo != {}
      invariant todo <= partial.Keys
      invariant result == ChangedAmong(partial, current.value, partial.Keys - todo)
      decreases |todo|
    {
      var k :| k in todo;
      ghost var done := partial.Keys - todo;
      ChangedAmongStep(partial, current.value, done, k);
      if !Same(partial[k], Get(current.value, k)) {
        result := result[k := partial[k]];
      }
      todo := todo - {k};
      assert partial.Keys - todo == done + {k};
    }
    assert partial.Keys - todo == partial.Keys;
  }

  lemma ChangedAmongStep(partial: Partial, current: Partial, ks: set<string>, k: string)
    requires k in partial && k !in ks
    ensures !Same(partial[k], Get(current, k)) ==>
      ChangedAmong(partial, current, ks + {k}) == ChangedAmong(partial, current, ks)[k := partial[k]]
    ensures Same(partial[k], Get(current, k)) ==>
      ChangedAmong(partial, current, ks + {k}) == ChangedAmong(partial, current, ks)
  {
  }

  /**
   * Only edited keys survive, with their edited values; a key is dropped
   * exactly when its new value is the same as the loaded one, so dropping it
   * loses nothing; a string that differs only by white space at its ends is
   * dropped; and filtering twice drops nothing more.
   */
  lemma ChangedMeaning(partial: Partial, current: Option<Partial>, k: string)
    ensures Changed(partial, current).Keys <= partial.Keys
    ensures k in Changed(partial, current) ==> Changed(partial, current)[k] == partial[k]
    ensures current.Some? && k in partial ==>
      (k !in Changed(partial, current) <==> Same(partial[k], Get(current.value, k)))
    ensures current.None? ==> Changed(partial, current) == partial
    ensures (current.Some? && k in partial && partial[k].Str? && Get(current.value, k).Str?
      && Trim(partial[k].s) == Trim(Get(current.value, k).s)) ==> k !in Changed(partial, current)
    ensures Changed(Changed(partial, current), current) == Changed(partial, current)
  {
  }

  /** pickKeysFromData's result: each key with its loaded value (undefined when missing), or {} without data. */
  function Picked(keys: set<string>, current: Option<Partial>): Partial
  {
    if current.None? then map[] else map k | k in keys :: Get(current.value, k)
  }

  /** pickKeysFromData, key by key. */
  method PickKeysFromData(keys: set<string>, current: Option<Partial>) returns (out: Partial)
    ensures out == Picked(keys, current)
  {
    out := map[];
    if current.None? {
      return;
    }
    var todo := keys;
    while todo != {}
      invariant todo <= keys
      invariant out == Picked(keys - todo, current)
      decreases |todo|
    {
      var k :| k in todo;
      ghost var done := keys - todo;
      PickedStep(done, current.value, k);
      out := out[k := Get(current.value, k)];
      todo := todo - {k};
      assert keys - todo == done + {k};
    }
    assert keys - todo == keys;
  }

  lemma PickedStep(done: set<string>, current: Partial, k: string)
    ensures Picked(done + {k}, Some(current)) == Picked(done, Some(current))[k := Get(current, k)]
  {
  }

  /**
   * With data loaded the picked object has exactly the requested keys, each
   * with its current value (a key the data lacks is present as undefined);
   * without data it is empty.
   */
  lemma PickedMeaning(keys: set<string>, current: Option<Partial>, k: string)
    ensures current.None? ==> Picked(keys, current) == map[]
    ensures current.Some? ==> Picked(keys, current).Keys == keys
    ensures current.Some? && k in keys ==>
      Picked(keys, current)[k] == (if k in current.value then current.value[k] else Undef)
  {
  }

  /** Every key of the set with the same value. */
  function Constant<V>(keys: set<string>, v: V): map<string, V>
  {
    map k | k in keys :: v
  }

  lemma ConstantStep<V>(prev: map<string, V>, done: set<string>, k: string, v: V)
    ensures prev + Constant(done + {k}, v) == (prev + Constant(done, v))[k := v]
  {
  }

  /** Spreading prev and setting every key of the set to v: the loop of clearErrorsForKeys and setStateForKeys. */
  method SetKeys<V>(prev: map<string, V>, keys: set<string>, v: V) returns (next: map<string, V>)
    ensures next == prev + Constant(keys, v)
  {
    next := prev;
    var todo := keys;
    while todo != {}
      invariant todo <= keys
      invariant next == prev + Constant(keys - todo, v)
      decreases |todo|
    {
      var k :| k in todo;
      ghost var done := keys - todo;
      ConstantStep(prev, done, k, v);
      next := next[k := v];
      todo := todo - {k};
      assert keys - todo == done + {k};
    }
    assert keys - todo == keys;
  }

  /** The fields that currently show an error: a string that is not empty. */
  function ErroredKeys(errors: map<string, Option<string>>): set<string>
  {
    set k | k in errors && errors[k].Some? && errors[k].value != ""
  }

  /** The queue after scheduling: forced error fields, then what was pending, then the new edits, each overriding the one before. */
  function QueueMerge(forced: Partial, pending: Partial, filtered: Partial): Partial
  {
    forced + pending + filtered
  }

  /**
   * New edits win over pending ones, and pending ones over forced error
   * fields; the queue holds exactly the keys of the three.
   */
  lemma QueuePrecedence(forced: Partial, pending: Partial, filtered: Partial, k: string)
    ensures QueueMerge(forced, pending, filtered).Keys == forced.Keys + pending.Keys + filtered.Keys
    ensures k in filtered ==> QueueMerge(forced, pending, filtered)[k] == filtered[k]
    ensures k !in filtered && k in pending ==> QueueMerge(forced, pending, filtered)[k] == pending[k]
    ensures k !in filtered && k !in pending && k in forced ==> QueueMerge(forced, pending, filtered)[k] == forced[k]
  {
  }

  /** defaultToErrorMessage: a string as it is, else the message, else a non-empty key, else the fallback. */
  function DefaultToMsg(e: ErrorEntry): string
  {
    match e
    case EStr(s) => s
    case EObj(key, message) =>
      if message.Some? then message.value
      else if key.Some? && key.value != "" then key.value
      else InvalidValue
    case ENull => InvalidValue
  }

  function ToMsg(cfg: Config, e: ErrorEntry): string
  {
    if cfg.toErrorMessage.Some? then cfg.toErrorMessage.value(e) else DefaultToMsg(e)
  }

  /** mapKey: the given mapping, or the backend name itself. */
  function MapKey(cfg: Config, backendKey: string): Option<string>
  {
    if cfg.mapFieldKey.Some? then cfg.mapFieldKey.value(backendKey) else Some(backendKey)
  }

  /** A mapped key is used unless it is null or the empty string. */
  predicate Usable(k: Option<string>)
  {
    k.Some? && k.value != ""
  }

  function Messages(cfg: Config, entries: seq<ErrorEntry>): (r: seq<string>)
    ensures |r| == |entries|
    ensures forall i :: 0 <= i < |entries| ==> r[i] == ToMsg(cfg, entries[i])
  {
    if |entries| == 0 then [] else [ToMsg(cfg, entries[0])] + Messages(cfg, entries[1..])
  }

  /** The error text of one backend field: its messages joined by newlines, or the fallback when that is empty. */
  function FieldMessage(cfg: Config, errors: Option<seq<ErrorEntry>>): string
  {
    var msg := Join(Messages(cfg, if errors.Some? then errors.value else []), "\n");
    if msg == "" then InvalidValue else msg
  }

  /** The field errors of the first loop, entry by entry: a later entry mapped to the same key overwrites an earlier one. */
  function MappedErrors(cfg: Config, entries: seq<FieldEntry>): map<string, Option<string>>
  {
    if |entries| == 0 then map[]
    else
      var prev := MappedErrors(cfg, entries[..|entries| - 1]);
      var e := entries[|entries| - 1];
      var k := MapKey(cfg, e.backendKey);
      if Usable(k) then prev[k.value := Some(FieldMessage(cfg, e.errors))] else prev
  }

  /** The second loop's additions: every sent key without a field error of its own. */
  function FillSent(named: map<string, Option<string>>, ks: set<string>, anyFieldError: bool): map<string, Option<string>>
  {
    map k | k in ks && k !in named :: if anyFieldError then Some(AnotherFieldError) else None
  }

  /** The errors applyBackendErrors spreads over the previous ones. */
  function BackendFieldErrors(cfg: Config, reqErr: RequestError, sentKeys: set<string>): map<string, Option<string>>
  {
    var named := MappedErrors(cfg, if reqErr.fields.Some? then reqErr.fields.value else []);
    named + FillSent(named, sentKeys, named != map[])
  }

  /** The non-empty strings, in order. */
  function NonEmpty(msgs: seq<string>): (r: seq<string>)
    ensures |r| <= |msgs|
    ensures forall i :: 0 <= i < |r| ==> r[i] != ""
  {
    if |msgs| == 0 then []
    else (if msgs[0] != "" then [msgs[0]] else []) + NonEmpty(msgs[1..])
  }

  /** The global errors after a backend error: the messages of the global entries that are not empty. */
  function GlobalMessages(cfg: Config, reqErr: RequestError): seq<string>
  {
    NonEmpty(Messages(cfg, if reqErr.global.Some? then reqErr.global.value else []))
  }

  /** Without an empty message nothing is filtered out. */
  lemma {:induction false} NonEmptyKeepsAll(msgs: seq<string>)
    requires forall i :: 0 <= i < |msgs| ==> msgs[i] != ""
    ensures NonEmpty(msgs) == msgs
  {
    if |msgs| > 0 {
      NonEmptyKeepsAll(msgs[1..]);
    }
  }

  /** The position of the last backend field whose name maps to k. */
  function LastMappedTo(cfg: Config, entries: seq<FieldEntry>, k: string): (r: Option<nat>)
    ensures r.Some? ==> r.value < |entries| && MapKey(cfg, entries[r.value].backendKey) == Some(k)
  {
    if |entries| == 0 then None
    else if MapKey(cfg, entries[|entries| - 1].backendKey) == Some(k) then Some(|entries| - 1)
    else LastMappedTo(cfg, entries[..|entries| - 1], k)
  }

  /** No field maps to k when there is no last one, and none after the last one does. */
  lemma {:induction false} LastMappedToMeaning(cfg: Config, entries: seq<FieldEntry>, k: string)
    ensures LastMappedTo(cfg, entries, k).None? <==>
      forall i :: 0 <= i < |entries| ==> MapKey(cfg, entries[i].backendKey) != Some(k)
    ensures LastMappedTo(cfg, entries, k).Some? ==>
      forall j :: LastMappedTo(cfg, entries, k).value < j < |entries| ==> MapKey(cfg, entries[j].backendKey) != Some(k)
    decreases |entries|
  {
    if |entries| > 0 {
      var n := |entries| - 1;
      LastMappedToMeaning(cfg, entries[..n], k);
      forall i | 0 <= i < n
        ensures entries[..n][i] == entries[i]
      {
      }
    }
  }

  /**
   * A backend field that maps to a usable key gives that key the error text,
   * never empty, of the last field mapped to it; no other key gets one.
   */
  lemma {:induction false} MappedErrorsMeaning(cfg: Config, entries: seq<FieldEntry>, k: string)
    ensures k in MappedErrors(cfg, entries) <==> k != "" && LastMappedTo(cfg, entries, k).Some?
    ensures k in MappedErrors(cfg, entries) ==>
      MappedErrors(cfg, entries)[k] == Some(FieldMessage(cfg, entries[LastMappedTo(cfg, entries, k).value].errors))
      && MappedErrors(cfg, entries)[k].value != ""
    decreases |entries|
  {
    if |entries| > 0 {
      var n := |entries| - 1;
      MappedErrorsMeaning(cfg, entries[..n], k);
      var r := LastMappedTo(cfg, entries[..n], k);
      if r.Some? {
        assert entries[..n][r.value] == entries[r.value];
      }
    }
  }

  /**
   * After a backend error: a key the server named shows its message; a sent
   * key it did not name shows "Another field has an error." when any field
   * error was named and is cleared otherwise; every other key keeps its
   * previous error.
   */
  lemma BackendErrorsMeaning(cfg: Config, reqErr: RequestError, sentKeys: set<string>, prev: map<string, Option<string>>, k: string)
    ensures var named := MappedErrors(cfg, if reqErr.fields.Some? then reqErr.fields.value else []);
      var next := prev + BackendFieldErrors(cfg, reqErr, sentKeys);
      (k in named ==> next[k] == named[k])
      && (k !in named && k in sentKeys && named != map[] ==> next[k] == Some(AnotherFieldError))
      && (k !in named && k in sentKeys && named == map[] ==> next[k] == None)
      && (k !in named && k !in sentKeys ==> (k in next <==> k in prev) && (k in prev ==> next[k] == prev[k]))
  {
  }

  /** The global errors are the non-empty messages; when none is empty, all of them in order. */
  lemma GlobalMessagesMeaning(cfg: Config, reqErr: RequestError)
    ensures |GlobalMessages(cfg, reqErr)| <= (if reqErr.global.Some? then |reqErr.global.value| else 0)
    ensures forall m :: m in GlobalMessages(cfg, reqErr) ==> m != ""
    ensures reqErr.global.Some? && (forall i :: 0 <= i < |reqErr.global.value| ==> ToMsg(cfg, reqErr.global.value[i]) != "") ==>
      GlobalMessages(cfg, reqErr) == Messages(cfg, reqErr.global.value)
  {
    var msgs := Messages(cfg, if reqErr.global.Some? then reqErr.global.value else []);
    if reqErr.global.Some? && (forall i :: 0 <= i < |reqErr.global.value| ==> ToMsg(cfg, reqErr.global.value[i]) != "") {
      NonEmptyKeepsAll(msgs);
    }
  }

  /** The default message of an entry is never empty unless the entry itself carries an empty string or message. */
  lemma DefaultToMsgMeaning(e: ErrorEntry)
    ensures DefaultToMsg(e) == "" <==> e == EStr("") || (e.EObj? && e.message == Some(""))
    ensures e.EObj? && e.message.None? && e.key.Some? && e.key.value != "" ==> DefaultToMsg(e) == e.key.value
  {
  }

  lemma FillSentStep(named: map<string, Option<string>>, done: set<string>, k: string, any: bool)
    requires k !in done
    ensures k !in named ==>
      named + FillSent(named, done + {k}, any) == (named + FillSent(named, done, any))[k := if any then Some(AnotherFieldError) else None]
    ensures k in named ==> named + FillSent(named, done + {k}, any) == named + FillSent(named, done, any)
  {
  }

  /** The second loop of applyBackendErrors: each sent key without an error of its own gets one, or is cleared. */
  method FillSentKeys(named: map<string, Option<string>>, sentKeys: set<string>, fieldErrors: bool)
    returns (next: map<string, Option<string>>)
    ensures next == named + FillSent(named, sentKeys, fieldErrors)
  {
    next := named;
    var todo := sentKeys;
    while todo != {}
      invariant todo <= sentKeys
      invariant next == named + FillSent(named, sentKeys - todo, fieldErrors)
      decreases |todo|
    {
      var k :| k in todo;
      ghost var done := sentKeys - todo;
      FillSentStep(named, done, k, fieldErrors);
      if k !in next {
        next := next[k := if fieldErrors then Some(AnotherFieldError) else None];
      }
      todo := todo - {k};
      assert sentKeys - todo == done + {k};
    }
    assert sentKeys - todo == sentKeys;
  }

  /** The two loops of applyBackendErrors: the field errors to spread over the previous ones, and the global messages. */
  method ComputeBackendErrors(cfg: Config, reqErr: RequestError, sentKeys: set<string>)
    returns (next: map<string, Option<string>>, globals: seq<string>)
    ensures next == BackendFieldErrors(cfg, reqErr, sentKeys)
    ensures globals == GlobalMessages(cfg, reqErr)
  {
    var entries := if reqErr.fields.Some? then reqErr.fields.value else [];
    var fieldErrors := false;
    next := map[];
    var i := 0;
    while i < |entries|
      invariant 0 <= i <= |entries|
      invariant next == MappedErrors(cfg, entries[..i])
      invariant fieldErrors <==> next != map[]
    {
      assert entries[..i + 1][..i] == entries[..i];
      var k := MapKey(cfg, entries[i].backendKey);
      if Usable(k) {
        next := next[k.value := Some(FieldMessage(cfg, entries[i].errors))];
        assert k.value in next;
        fieldErrors := true;
      }
      i := i + 1;
    }
    assert entries[..i] == entries;
    next := FillSentKeys(next, sentKeys, fieldErrors);
    globals := NonEmpty(Messages(cfg, if reqErr.global.Some? then reqErr.global.value else []));
  }

  /** getErr: the given extractor, or the default one, which takes the error of an "error" response that has fields. */
  function GetErr(cfg: Config, response: Response): Option<RequestError>
  {
    if cfg.getRequestError.Some? then cfg.getRequestError.value(response)
    else if !response.success && response.error.Some? && response.error.value.fields.Some? then response.error
    else None
  }

  /** A response the hook merges: no request error, a success, and data. */
  predicate Merges(cfg: Config, response: Response)
  {
    GetErr(cfg, response).None? && response.success && response.data.Some?
  }

  /**
   * The form's state. The fields of the React state, the refs the debounced
   * callback reads (synchronised after each render), the pending queue, and
   * the requests sent so far.
   */
  class EntityForm {
    const cfg: Config
    var data: Option<Partial>
    var errors: map<string, Option<string>>
    var states: map<string, StateType>
    var globalErrors: seq<string>
    var isSaving: bool
    var error: Option<string>
    var dataRef: Option<Partial>
    var errorsRef: map<string, Option<string>>
    var latestId: string
    var mounted: bool
    var pending: Partial
    var timerArmed: bool
    var requests: seq<Request>

    constructor(uuid: string, cfg: Config)
      ensures this.cfg == cfg && latestId == uuid && mounted
      ensures data == None && dataRef == None && errors == map[] && errorsRef == map[] && states == map[]
      ensures globalErrors == [] && !isSaving && error == None
      ensures pending == map[] && !timerArmed && requests == []
    {
      this.cfg := cfg;
      data := None;
      errors := map[];
      states := map[];
      globalErrors := [];
      isSaving := false;
      error := None;
      dataRef := None;
      errorsRef := map[];
      latestId := uuid;
      mounted := true;
      pending := map[];
      timerArmed := false;
      requests := [];
    }

    /** The effects after a render copy the state into the refs. */
    method SyncRefs()
      modifies this
      ensures dataRef == data && errorsRef == errors
      ensures data == old(data) && errors == old(errors) && states == old(states) && pending == old(pending)
      ensures timerArmed == old(timerArmed) && requests == old(requests) && mounted == old(mounted)
      ensures globalErrors == old(globalErrors) && isSaving == old(isSaving) && error == old(error) && latestId == old(latestId)
    {
      dataRef := data;
      errorsRef := errors;
    }

    /** Unmounting marks the hook unmounted and clears the timer; the queue is not sent. */
    method Unmount()
      modifies this
      ensures !mounted && !timerArmed
      ensures pending == old(pending) && requests == old(requests) && data == old(data) && errors == old(errors)
      ensures states == old(states) && globalErrors == old(globalErrors) && isSaving == old(isSaving) && error == old(error)
      ensures dataRef == old(dataRef) && errorsRef == old(errorsRef) && latestId == old(latestId)
    {
      mounted := false;
      timerArmed := false;
    }

    /** clearErrorsForKeys. */
    method ClearErrorsForKeys(keys: set<string>)
      modifies this
      ensures errors == old(errors) + Constant(keys, None)
      ensures data == old(data) && states == old(states) && pending == old(pending) && requests == old(requests)
      ensures globalErrors == old(globalErrors) && mounted == old(mounted) && isSaving == old(isSaving)
      ensures error == old(error) && latestId == old(latestId) && timerArmed == old(timerArmed)
      ensures dataRef == old(dataRef) && errorsRef == old(errorsRef)
    {
      errors := SetKeys(errors, keys, None);
    }

    /** setStateForKeys. */
    method SetStateForKeys(keys: set<string>, state: StateType)
      modifies this
      ensures states == old(states) + Constant(keys, state)
      ensures data == old(data) && errors == old(errors) && pending == old(pending) && requests == old(requests)
      ensures globalErrors == old(globalErrors) && mounted == old(mounted) && isSaving == old(isSaving)
      ensures error == old(error) && latestId == old(latestId) && timerArmed == old(timerArmed)
      ensures dataRef == old(dataRef) && errorsRef == old(errorsRef)
    {
      states := SetKeys(states, keys, state);
    }

    /**
     * schedulePatch: nothing happens when no edit changes anything and no field
     * shows an error; otherwise the queue takes the forced error fields, the
     * pending edits and the new ones, and the timer is (re)armed.
     */
    method SchedulePatch(partial: Partial)
      modifies this
      ensures var filtered := Changed(partial, old(dataRef));
        var forced := Picked(ErroredKeys(old(errorsRef)), old(dataRef));
        if filtered == map[] && forced == map[] then pending == old(pending) && timerArmed == old(timerArmed)
        else pending == QueueMerge(forced, old(pending), filtered) && timerArmed
      ensures data == old(data) && errors == old(errors) && states == old(states) && requests == old(requests)
      ensures dataRef == old(dataRef) && errorsRef == old(errorsRef) && mounted == old(mounted)
      ensures globalErrors == old(globalErrors) && isSaving == old(isSaving) && error == old(error) && latestId == old(latestId)
    {
      var filtered := RemoveUnchanged(partial, dataRef);
      var forced := PickKeysFromData(ErroredKeys(errorsRef), dataRef);
      if filtered == map[] && forced == map[] {
        return;
      }
      pending := forced + pending + filtered;
      timerArmed := true;
    }

    /**
     * setField: the field's error is cleared, its state becomes UNDEFINED, the
     * loaded data takes the value at once, and the single-key edit is scheduled
     * against the data of the last render.
     */
    method SetField(key: string, value: Val)
      modifies this
      ensures errors == old(errors)[key := None]
      ensures states == old(states)[key := UNDEFINED]
      ensures data == if old(data).None? then None else Some(old(data).value[key := value])
      ensures var filtered := Changed(map[key := value], old(dataRef));
        var forced := Picked(ErroredKeys(old(errorsRef)), old(dataRef));
        if filtered == map[] && forced == map[] then pending == old(pending) && timerArmed == old(timerArmed)
        else pending == QueueMerge(forced, old(pending), filtered) && timerArmed
      ensures requests == old(requests) && dataRef == old(dataRef) && errorsRef == old(errorsRef) && mounted == old(mounted)
      ensures globalErrors == old(globalErrors) && isSaving == old(isSaving) && error == old(error) && latestId == old(latestId)
    {
      errors := errors[key := None];
      states := states[key := UNDEFINED];
      data := if data.None? then None else Some(data.value[key := value]);
      SchedulePatch(map[key := value]);
    }

    /**
     * The timer fires: the whole queue is taken and emptied, saving starts, and
     * the request goes out (a POST of the data in create mode).
     */
    method Flush() returns (toSend: Partial)
      modifies this
      ensures toSend == old(pending) && pending == map[] && isSaving && !timerArmed
      ensures requests == old(requests) +
        [if latestId == CreateId then CreateRequest(dataRef) else PatchRequest(latestId, toSend)]
      ensures data == old(data) && errors == old(errors) && states == old(states) && latestId == old(latestId)
      ensures dataRef == old(dataRef) && mounted == old(mounted)
      ensures errorsRef == old(errorsRef) && globalErrors == old(globalErrors) && error == old(error)
    {
      toSend := pending;
      pending := map[];
      isSaving := true;
      timerArmed := false;
      var request := if latestId == CreateId then CreateRequest(dataRef) else PatchRequest(latestId, toSend);
      requests := requests + [request];
    }

    /** applyBackendErrors: the field errors spread over the previous ones, and the global errors replaced. */
    method ApplyBackendErrors(reqErr: RequestError, sentKeys: set<string>)
      modifies this
      ensures errors == old(errors) + BackendFieldErrors(cfg, reqErr, sentKeys)
      ensures globalErrors == GlobalMessages(cfg, reqErr)
      ensures data == old(data) && states == old(states) && pending == old(pending) && requests == old(requests)
      ensures mounted == old(mounted) && isSaving == old(isSaving)
      ensures error == old(error) && latestId == old(latestId) && timerArmed == old(timerArmed)
      ensures dataRef == old(dataRef) && errorsRef == old(errorsRef)
    {
      var next, globals := ComputeBackendErrors(cfg, reqErr, sentKeys);
      errors := errors + next;
      globalErrors := globals;
    }

    /**
     * The response handling inside the try block: a backend error marks the sent
     * keys ERROR and keeps the data; a success with data merges it, clears the
     * sent keys' errors, marks them SUCCESS and empties the global errors; any
     * other response changes nothing.
     */
    method HandleResponse(toSend: Partial, response: Response)
      modifies this
      ensures GetErr(cfg, response).Some? ==>
        errors == old(errors) + BackendFieldErrors(cfg, GetErr(cfg, response).value, toSend.Keys)
        && globalErrors == GlobalMessages(cfg, GetErr(cfg, response).value)
        && states == old(states) + Constant(toSend.Keys, ERROR)
        && data == old(data)
      ensures GetErr(cfg, response).None? && response.success && response.data.Some? ==>
        data == (if old(data).None? then None else Some(old(data).value + response.data.value))
        && errors == old(errors) + Constant(toSend.Keys, None)
        && states == old(states) + Constant(toSend.Keys, SUCCESS)
        && globalErrors == []
      ensures GetErr(cfg, response).None? && !(response.success && response.data.Some?) ==>
        data == old(data) && errors == old(errors) && states == old(states) && globalErrors == old(globalErrors)
      ensures error == old(error) && isSaving == old(isSaving) && pending == old(pending) && requests == old(requests)
      ensures mounted == old(mounted) && dataRef == old(dataRef) && errorsRef == old(errorsRef)
      ensures latestId == old(latestId) && timerArmed == old(timerArmed)
    {
      var reqErr := GetErr(cfg, response);
      if reqErr.Some? {
        ApplyBackendErrors(reqErr.value, toSend.Keys);
        SetStateForKeys(toSend.Keys, ERROR);
      } else if response.success && response.data.Some? {
        data := if data.None? then None else Some(data.value + response.data.value);
        ClearErrorsForKeys(toSend.Keys);
        SetStateForKeys(toSend.Keys, SUCCESS);
        globalErrors := [];
      }
    }

    /** The state after Receive, field by field, against the state before it. */
    twostate predicate ReceivedAs(toSend: Partial, outcome: Outcome)
      reads this
    {
      (isSaving == (old(isSaving) && !old(mounted)))
      && (error == if old(mounted) && outcome.Threw?
              then Some(if outcome.message.Some? then outcome.message.value else PatchError) else old(error))
      && (data == if old(mounted) && outcome.Answered? && Merges(cfg, outcome.response)
              then (if old(data).None? then None else Some(old(data).value + outcome.response.data.value))
              else old(data))
      && (errors == if !old(mounted) || outcome.Threw? then old(errors)
              else if GetErr(cfg, outcome.response).Some?
              then old(errors) + BackendFieldErrors(cfg, GetErr(cfg, outcome.response).value, toSend.Keys)
              else if Merges(cfg, outcome.response) then old(errors) + Constant(toSend.Keys, None)
              else old(errors))
      && (states == if !old(mounted) || outcome.Threw? then old(states)
              else if GetErr(cfg, outcome.response).Some? then old(states) + Constant(toSend.Keys, ERROR)
              else if Merges(cfg, outcome.response) then old(states) + Constant(toSend.Keys, SUCCESS)
              else old(states))
      && (globalErrors == if !old(mounted) || outcome.Threw? then old(globalErrors)
              else if GetErr(cfg, outcome.response).Some? then GlobalMessages(cfg, GetErr(cfg, outcome.response).value)
              else if Merges(cfg, outcome.response) then []
              else old(globalErrors))
      && (pending == old(pending) && requests == old(requests) && mounted == old(mounted))
      && (dataRef == old(dataRef) && errorsRef == old(errorsRef) && latestId == old(latestId) && timerArmed == old(timerArmed))
    }

    /**
     * The answer to a flushed request: a response is handled as above, an
     * exception sets the hook's error, and saving ends. Nothing changes once
     * unmounted.
     */
    method Receive(toSend: Partial, outcome: Outcome)
      modifies this
      ensures ReceivedAs(toSend, outcome)
    {
      if mounted {
        if outcome.Threw? {
          error := Some(if outcome.message.Some? then outcome.message.value else PatchError);
        } else {
          HandleResponse(toSend, outcome.response);
        }
        isSaving := false;
      }
    }
  }
}
