/**
 * The field hook of the entity form: which value a text field shows, its helper
 * text, and what its three handlers do. In patch-on-blur mode a change only
 * updates the hook's local copy and the patch is sent on blur; otherwise every
 * change is sent at once. Blur and Enter skip the patch when the normalised
 * input compares equal to the stored value. The form's setField callback is
 * modelled by the sequence of calls it receives.
 */
module UseEntityField {
  import opened Common
  import opened Text

  /** The value a string field of the loaded entity holds (a number can reach it at run time). */
  datatype FieldData = DNull | DStr(s: string) | DNum(n: real)

  /** valueFromData and the hook's local copy: a string, or a number passed through from the data. */
  datatype Stored = SStr(s: string) | SNum(n: real)

  datatype Mode = OnChange | OnBlur | OnEnter

  /** One call of the form's setField(key, value, mode). */
  datatype SetFieldCall = SetFieldCall(field: string, value: string, mode: Mode)

  /** What a handler does: nothing, setLocal(value), or setField(field, value, mode). */
  datatype Effect = NoEffect | SetLocal(value: string) | SetField(value: string, mode: Mode)

  /**
   * The options that stay fixed for the field: its key, the patch-on-blur and
   * loading flags, the optional normaliser and comparator, and how a number
   * renders as text (Number.prototype.toString).
   */
  datatype Settings = Settings(
    field: string,
    patchOnBlur: bool,
    loading: bool,
    normalize: Option<string -> string>,
    compare: Option<(Stored, string) -> bool>,
    numberText: real -> string)

  /** data?.[field] ?? "": no data, a missing key and null all read as "". */
  function ValueFromData(data: Option<map<string, FieldData>>, field: string): (r: Stored)
    ensures data.Some? && field in data.value && data.value[field].DStr? ==> r == SStr(data.value[field].s)
    ensures data.Some? && field in data.value && data.value[field].DNum? ==> r == SNum(data.value[field].n)
    ensures data.None? || field !in data.value || data.value[field].DNull? ==> r == SStr("")
  {
    if data.None? || field !in data.value then SStr("")
    else
      match data.value[field]
      case DNull => SStr("")
      case DStr(s) => SStr(s)
      case DNum(n) => SNum(n)
  }

  /** The default comparator: a number's text against the trimmed input, otherwise both sides trimmed. */
  function DefaultEq(a: Stored, b: string, numberText: real -> string): bool
  {
    match a
    case SNum(n) => numberText(n) == Trim(b)
    case SStr(s) => Trim(s) == Trim(b)
  }

  /** norm: the given normaliser, or the identity. */
  function Norm(settings: Settings, v: string): string
  {
    if settings.normalize.Some? then settings.normalize.value(v) else v
  }

  /** eq: the given comparator, or the default one. */
  function Eq(settings: Settings, a: Stored, b: string): bool
  {
    if settings.compare.Some? then settings.compare.value(a, b) else DefaultEq(a, b, settings.numberText)
  }

  /** onChange(next). */
  function ChangeEffect(settings: Settings, next: string): Effect
  {
    var normalized := Norm(settings, next);
    if settings.patchOnBlur then SetLocal(normalized) else SetField(normalized, OnChange)
  }

  /** onBlur(currentInput), against the value the data holds. */
  function BlurEffect(settings: Settings, stored: Stored, input: string): Effect
  {
    if !settings.patchOnBlur then NoEffect
    else
      var normalized := Norm(settings, input);
      if Eq(settings, stored, normalized) then NoEffect else SetField(normalized, OnBlur)
  }

  /** onEnter(currentInput), against the value the data holds. */
  function EnterEffect(settings: Settings, stored: Stored, input: string): Effect
  {
    var normalized := Norm(settings, input);
    if Eq(settings, stored, normalized) then NoEffect else SetField(normalized, OnEnter)
  }

  /** helperText: the field's error, or a single blank that keeps the line's height. */
  function HelperText(errors: map<string, string>, field: string): (r: string)
    ensures field in errors ==> r == errors[field]
    ensures field !in errors ==> r == " "
  {
    if field in errors then errors[field] else " "
  }

  /** The value the text field shows: the local copy in patch-on-blur mode, the data's value otherwise. */
  function Displayed(settings: Settings, local: Stored, data: Option<map<string, FieldData>>): Stored
  {
    if settings.patchOnBlur then local else ValueFromData(data, settings.field)
  }

  /**
   * The default comparator is an equivalence on strings that ignores white
   * space at either end: reflexive, symmetric, transitive, blind to an added
   * blank at either end, and it finds a trimmed input equal to the untrimmed
   * stored value. A number equals exactly the inputs whose trimmed text is its
   * rendering.
   */
  lemma DefaultEqMeaning(a: string, b: string, c: string, n: real, ws: char, numberText: real -> string)
    requires IsJsWhitespace(ws)
    ensures DefaultEq(SStr(a), a, numberText)
    ensures DefaultEq(SStr(a), b, numberText) == DefaultEq(SStr(b), a, numberText)
    ensures DefaultEq(SStr(a), b, numberText) && DefaultEq(SStr(b), c, numberText) ==> DefaultEq(SStr(a), c, numberText)
    ensures DefaultEq(SStr(a), [ws] + b, numberText) == DefaultEq(SStr(a), b, numberText)
    ensures DefaultEq(SStr(a), b + [ws], numberText) == DefaultEq(SStr(a), b, numberText)
    ensures DefaultEq(SStr(a), Trim(a), numberText)
    ensures (forall i :: 0 <= i < |numberText(n)| ==> !IsJsWhitespace(numberText(n)[i])) ==>
      (DefaultEq(SNum(n), b, numberText) <==> DefaultEq(SStr(numberText(n)), b, numberText))
  {
    TrimPadding(b, ws);
    TrimPadding(a, ws);
    TrimShape(numberText(n));
  }

  /**
   * onChange never skips: in patch-on-blur mode it only sets the local copy,
   * otherwise it only calls setField with mode "onChange"; either way with the
   * normalised input.
   */
  lemma ChangeNeverSkips(settings: Settings, next: string)
    ensures ChangeEffect(settings, next) != NoEffect
    ensures ChangeEffect(settings, next).SetLocal? <==> settings.patchOnBlur
    ensures ChangeEffect(settings, next).SetField? <==> !settings.patchOnBlur
    ensures ChangeEffect(settings, next).value == Norm(settings, next)
    ensures ChangeEffect(settings, next).SetField? ==> ChangeEffect(settings, next).mode == OnChange
  {
  }

  /**
   * Blur does nothing outside patch-on-blur mode and never touches the local
   * copy; Enter acts the same whatever the mode; both skip exactly when the
   * normalised input compares equal to the stored value, and otherwise send
   * the normalised input with their own mode.
   */
  lemma BlurAndEnterMeaning(settings: Settings, stored: Stored, input: string, patchOnBlur: bool)
    ensures !settings.patchOnBlur ==> BlurEffect(settings, stored, input) == NoEffect
    ensures !BlurEffect(settings, stored, input).SetLocal? && !EnterEffect(settings, stored, input).SetLocal?
    ensures EnterEffect(settings.(patchOnBlur := patchOnBlur), stored, input) == EnterEffect(settings, stored, input)
    ensures EnterEffect(settings, stored, input) == NoEffect <==> Eq(settings, stored, Norm(settings, input))
    ensures settings.patchOnBlur ==>
      (BlurEffect(settings, stored, input) == NoEffect <==> EnterEffect(settings, stored, input) == NoEffect)
    ensures EnterEffect(settings, stored, input) != NoEffect ==>
      EnterEffect(settings, stored, input) == SetField(Norm(settings, input), OnEnter)
    ensures BlurEffect(settings, stored, input) != NoEffect ==>
      BlurEffect(settings, stored, input) == SetField(Norm(settings, input), OnBlur)
  {
  }

  /**
   * With the default normaliser and comparator, Blur and Enter send nothing
   * for an input that differs from the stored string only by white space at
   * its ends, nor for a number's own rendering.
   */
  lemma DefaultSkipsPadding(settings: Settings, s: string, input: string, n: real)
    requires settings.normalize.None? && settings.compare.None?
    requires Trim(input) == Trim(s)
    ensures BlurEffect(settings, SStr(s), input) == NoEffect
    ensures EnterEffect(settings, SStr(s), input) == NoEffect
    ensures EnterEffect(settings, SNum(n), settings.numberText(n) + " ") == NoEffect
      <==> Trim(settings.numberText(n)) == settings.numberText(n)
  {
    TrimPadding(settings.numberText(n), ' ');
  }

  /**
   * The hook of one field. The data and errors are the props of the latest
   * render; local is the state the hook keeps between renders; calls are the
   * setField calls made so far.
   */
  class EntityField {
    const settings: Settings
    var data: Option<map<string, FieldData>>
    var errors: map<string, string>
    var local: Stored
    var calls: seq<SetFieldCall>

    /** The first render: the local copy starts as the data's value. */
    constructor(settings: Settings, data: Option<map<string, FieldData>>, errors: map<string, string>)
      ensures this.settings == settings && this.data == data && this.errors == errors
      ensures local == ValueFromData(data, settings.field)
      ensures calls == []
    {
      this.settings := settings;
      this.data := data;
      this.errors := errors;
      this.local := ValueFromData(data, settings.field);
      this.calls := [];
    }

    /** The value shown in the text field. */
    function Value(): Stored
      reads this
    {
      Displayed(settings, local, data)
    }

    /** The field is disabled while the form is loading. */
    function Disabled(): bool
      reads this
    {
      settings.loading
    }

    /**
     * A later render with new props. The callback meant to copy the data into
     * the local copy is only created, never called, so the local copy keeps
     * its value.
     */
    method Rerender(data: Option<map<string, FieldData>>, errors: map<string, string>)
      modifies this
      ensures this.data == data && this.errors == errors
      ensures local == old(local) && calls == old(calls)
    {
      this.data := data;
      this.errors := errors;
    }

    /** Carries out a handler's effect. */
    method Apply(e: Effect)
      modifies this
      ensures e.SetLocal? ==> local == SStr(e.value)
      ensures !e.SetLocal? ==> local == old(local)
      ensures e.SetField? ==> calls == old(calls) + [SetFieldCall(settings.field, e.value, e.mode)]
      ensures !e.SetField? ==> calls == old(calls)
      ensures data == old(data) && errors == old(errors)
    {
      match e
      case NoEffect =>
      case SetLocal(v) => local := SStr(v);
      case SetField(v, mode) => calls := calls + [SetFieldCall(settings.field, v, mode)];
    }

    method HandleChange(next: string)
      modifies this
      ensures settings.patchOnBlur ==> local == SStr(Norm(settings, next)) && calls == old(calls)
      ensures !settings.patchOnBlur ==>
        local == old(local) && calls == old(calls) + [SetFieldCall(settings.field, Norm(settings, next), OnChange)]
      ensures data == old(data) && errors == old(errors)
    {
      Apply(ChangeEffect(settings, next));
    }

    method HandleBlur(input: string)
      modifies this
      ensures local == old(local) && data == old(data) && errors == old(errors)
      ensures BlurEffect(settings, ValueFromData(data, settings.field), input) == NoEffect ==> calls == old(calls)
      ensures BlurEffect(settings, ValueFromData(data, settings.field), input) != NoEffect ==>
        calls == old(calls) + [SetFieldCall(settings.field, Norm(settings, input), OnBlur)]
    {
      Apply(BlurEffect(settings, ValueFromData(data, settings.field), input));
    }

    method HandleEnter(input: string)
      modifies this
      ensures local == old(local) && data == old(data) && errors == old(errors)
      ensures EnterEffect(settings, ValueFromData(data, settings.field), input) == NoEffect ==> calls == old(calls)
      ensures EnterEffect(settings, ValueFromData(data, settings.field), input) != NoEffect ==>
        calls == old(calls) + [SetFieldCall(settings.field, Norm(settings, input), OnEnter)]
    {
      Apply(EnterEffect(settings, ValueFromData(data, settings.field), input));
    }
  }

  /**
   * In patch-on-blur mode typing sends nothing: a change followed by a blur
   * sends at most the one patch of the blur, and the field then shows what was
   * typed.
   */
  method TypeThenBlur(f: EntityField, typed: string)
    requires f.settings.patchOnBlur
    modifies f
    ensures f.Value() == SStr(Norm(f.settings, typed))
    ensures old(f.calls) <= f.calls && |f.calls| <= |old(f.calls)| + 1
    ensures |f.calls| == |old(f.calls)| + 1 ==> f.calls[|old(f.calls)|].mode == OnBlur
  {
    f.HandleChange(typed);
    f.HandleBlur(typed);
  }
}
