/**
 * ValidationErrors: the registry of global and per-field validation errors that
 * validators fill and the REST layer reports. The registry is a class whose two
 * fields are updated in place; ErrorSet is its value, and the pure operations on
 * ErrorSet specify the methods.
 */
module ErrorRegistry {
  import opened Common
  import Text

  /** A message key with its parameters; equal keys and parameters are the same error. */
  datatype ValidationError = ValidationError(code: string, params: seq<Param>)

  const UniqueError := ValidationError("error.validation.unique", [])
  const RequiredError := ValidationError("error.validation.required", [])
  const InvalidValueError := ValidationError("error.validation.invalidValue", [])

  function MaxLengthError(maxLength: int): ValidationError
  {
    ValidationError("error.validation.maxLength", [PInt(maxLength)])
  }

  /** The contents of a registry: the global errors and the error set of each field. */
  datatype ErrorSet = ErrorSet(global: set<ValidationError>, fields: map<string, set<ValidationError>>)
  {
    /** The errors registered for a field, empty when the field has no entry. */
    function FieldGet(f: string): set<ValidationError>
    {
      if f in fields then fields[f] else {}
    }

    /** No global error and no field entry. */
    predicate IsEmpty()
    {
      global == {} && fields == map[]
    }

    function AddGlobal(e: ValidationError): ErrorSet
    {
      ErrorSet(global + {e}, fields)
    }

    /** computeIfAbsent(field, new set).add(error): the field gets an entry holding the error. */
    function AddField(f: string, e: ValidationError): ErrorSet
    {
      ErrorSet(global, fields[f := FieldGet(f) + {e}])
    }

    function ClearField(f: string): ErrorSet
    {
      ErrorSet(global, fields - {f})
    }

    /** Adds every error of `s` to field `f`; nothing changes (no entry is made) when `s` is empty. */
    function AddFieldAll(f: string, s: set<ValidationError>): ErrorSet
    {
      if s == {} then this else ErrorSet(global, fields[f := FieldGet(f) + s])
    }

    /** Adds the error `e` to each field of `fs`. */
    function AddToFields(fs: set<string>, e: ValidationError): ErrorSet
    {
      ErrorSet(global, map k | k in fields.Keys + fs :: FieldGet(k) + (if k in fs then {e} else {}))
    }

    /** Adds, for each field of `m`, the errors `m` maps it to. */
    function Merge(m: map<string, set<ValidationError>>): ErrorSet
    {
      ErrorSet(global, map k | k in fields.Keys + m.Keys :: FieldGet(k) + (if k in m then m[k] else {}))
    }
  }

  const NoErrors := ErrorSet({}, map[])

  /** Adding an error, globally or to a field, leaves the registry non-empty and keeps every earlier error. */
  lemma AddKeepsAndRecords(es: ErrorSet, f: string, e: ValidationError)
    ensures !es.AddField(f, e).IsEmpty() && !es.AddGlobal(e).IsEmpty()
    ensures e in es.AddField(f, e).FieldGet(f) && e in es.AddGlobal(e).global
    ensures forall k :: es.FieldGet(k) <= es.AddField(f, e).FieldGet(k)
    ensures es.AddField(f, e).AddField(f, e) == es.AddField(f, e)
  {
  }

  /** Adding to a field the errors one by one is adding the set of them. */
  lemma AddFieldStep(es: ErrorSet, f: string, s: set<ValidationError>, e: ValidationError)
    ensures es.AddFieldAll(f, s).AddField(f, e) == es.AddFieldAll(f, s + {e})
  {
    var g := es.FieldGet(f);
    if s == {} {
      assert s + {e} == {e};
    } else {
      var a := es.AddFieldAll(f, s);
      assert a.FieldGet(f) == g + s;
      assert (g + s) + {e} == g + (s + {e});
      assert a.AddField(f, e).fields == es.fields[f := g + (s + {e})];
    }
  }

  /** Adding the same error to fields one at a time builds AddToFields. */
  lemma AddToFieldsStep(es: ErrorSet, fs: set<string>, f: string, e: ValidationError)
    ensures es.AddToFields(fs, e).AddField(f, e) == es.AddToFields(fs + {f}, e)
  {
    var a := es.AddToFields(fs, e).AddField(f, e);
    var b := es.AddToFields(fs + {f}, e);
    assert a.fields.Keys == b.fields.Keys;
    forall k | k in a.fields
      ensures a.fields[k] == b.fields[k]
    {
      if k == f {
        assert a.fields[k] == es.AddToFields(fs, e).FieldGet(f) + {e};
      }
    }
  }

  /**
   * AddToFields gives each listed field the error and keeps every other entry;
   * Merge keeps every entry and adds one for each merged field.
   */
  lemma AddToFieldsMeaning(es: ErrorSet, fs: set<string>, e: ValidationError, m: map<string, set<ValidationError>>)
    ensures es.AddToFields(fs, e).global == es.global && es.Merge(m).global == es.global
    ensures es.AddToFields(fs, e).fields.Keys == es.fields.Keys + fs
    ensures forall k :: es.AddToFields(fs, e).FieldGet(k) == es.FieldGet(k) + (if k in fs then {e} else {})
    ensures es.Merge(m).fields.Keys == es.fields.Keys + m.Keys
    ensures forall k :: es.Merge(m).FieldGet(k) == es.FieldGet(k) + (if k in m then m[k] else {})
  {
  }

  /** Adding an error to no field changes nothing. */
  lemma AddToNoFields(es: ErrorSet, e: ValidationError)
    ensures es.AddToFields({}, e) == es
  {
    var a := es.AddToFields({}, e);
    assert a.fields.Keys == es.fields.Keys;
    forall k | k in a.fields
      ensures a.fields[k] == es.fields[k]
    {
    }
  }

  /** Merging one more field's (non-empty) errors, one field at a time, builds Merge. */
  lemma MergeStep(es: ErrorSet, m: map<string, set<ValidationError>>, f: string, s: set<ValidationError>)
    requires f !in m && s != {}
    ensures es.Merge(m).AddFieldAll(f, s) == es.Merge(m[f := s])
  {
    var c := es.Merge(m);
    var a := c.AddFieldAll(f, s);
    var b := es.Merge(m[f := s]);
    assert a.fields == c.fields[f := c.FieldGet(f) + s];
    assert a.fields.Keys == b.fields.Keys;
    forall k | k in a.fields
      ensures a.fields[k] == b.fields[k]
    {
      MergeStepAt(es, m, f, s, k);
    }
  }

  lemma MergeStepAt(es: ErrorSet, m: map<string, set<ValidationError>>, f: string, s: set<ValidationError>, k: string)
    requires f !in m && s != {}
    ensures es.Merge(m).AddFieldAll(f, s).FieldGet(k) == es.Merge(m[f := s]).FieldGet(k)
  {
  }

  lemma MergeEmpty(es: ErrorSet)
    ensures es.Merge(map[]) == es
  {
    var a := es.Merge(map[]);
    assert a.fields.Keys == es.fields.Keys;
    forall k | k in a.fields
      ensures a.fields[k] == es.fields[k]
    {
    }
  }

  /** setFieldError leaves exactly one error on the field and touches no other field. */
  lemma SetFieldLeavesOne(es: ErrorSet, f: string, e: ValidationError)
    ensures es.ClearField(f).AddField(f, e).FieldGet(f) == {e}
    ensures forall k :: k != f ==> es.ClearField(f).AddField(f, e).FieldGet(k) == es.FieldGet(k)
    ensures es.ClearField(f).AddField(f, e).global == es.global
  {
  }

  /** isBlank for a nullable string (None is null). */
  predicate Blank(s: Option<string>)
  {
    s.None? || Text.IsBlank(s.value)
  }

  /** The minimum check of decideRangeError: false when the value lies below an inclusive or at or below an exclusive bound. */
  predicate AboveMin(v: real, min: real, inclusive: bool)
  {
    if inclusive then v >= min else v > min
  }

  predicate BelowMax(v: real, max: real, inclusive: bool)
  {
    if inclusive then v <= max else v < max
  }

  /** The error decideRangeError registers, if any (bounds compared as real numbers). */
  function RangeError(value: Option<real>, min: Option<real>, minInclusive: bool, max: Option<real>, maxInclusive: bool)
    : Option<ValidationError>
  {
    if value.None? then None
    else if min.Some? && max.Some? then
      var minViolation := (minInclusive && value.value < min.value) || (!minInclusive && value.value <= min.value);
      var maxViolation := (maxInclusive && value.value > max.value) || (!maxInclusive && value.value >= max.value);
      if minViolation || maxViolation then
        Some(ValidationError("error.validation.notInRange",
          [PStr(if minInclusive then "[" else "("), PReal(min.value), PReal(max.value), PStr(if maxInclusive then "]" else ")")]))
      else None
    else if min.Some? then
      if (minInclusive && value.value < min.value) || (!minInclusive && value.value <= min.value) then
        Some(ValidationError("error.validation.notInSingleBoundary", [PStr(if minInclusive then ">=" else ">"), PReal(min.value)]))
      else None
    else if max.Some? then
      if (maxInclusive && value.value > max.value) || (!maxInclusive && value.value >= max.value) then
        Some(ValidationError("error.validation.notInSingleBoundary", [PStr(if maxInclusive then "<=" else "<"), PReal(max.value)]))
      else None
    else None
  }

  /**
   * decideRangeError rejects exactly the values outside the bounds that are given:
   * a missing value or missing bound never fails, and the error names the kind of check.
   */
  lemma RangeErrorMeaning(value: Option<real>, min: Option<real>, minInclusive: bool, max: Option<real>, maxInclusive: bool)
    ensures var r := RangeError(value, min, minInclusive, max, maxInclusive);
      (r.None? <==> value.None? || ((min.Some? ==> AboveMin(value.value, min.value, minInclusive))
                                    && (max.Some? ==> BelowMax(value.value, max.value, maxInclusive))))
      && (r.Some? ==> r.value.code == (if min.Some? && max.Some? then "error.validation.notInRange" else "error.validation.notInSingleBoundary"))
  {
  }

  /** A registry of validation errors, updated in place. */
  class ValidationErrors {
    var global: set<ValidationError>
    var fields: map<string, set<ValidationError>>

    function Snapshot(): ErrorSet
      reads this
    {
      ErrorSet(global, fields)
    }

    constructor ()
      ensures Snapshot() == NoErrors
    {
      global := {};
      fields := map[];
    }

    method AddGlobalError(e: ValidationError)
      modifies this
      ensures Snapshot() == old(Snapshot()).AddGlobal(e)
    {
      global := global + {e};
    }

    method AddFieldError(f: string, e: ValidationError)
      modifies this
      ensures Snapshot() == old(Snapshot()).AddField(f, e)
    {
      var errs := if f in fields then fields[f] else {};
      fields := fields[f := errs + {e}];
    }

    method AddGlobalErrors(errs: set<ValidationError>)
      modifies this
      ensures Snapshot() == ErrorSet(old(global) + errs, old(fields))
    {
      global := global + errs;
    }

    /** clearField followed by addFieldError: the error becomes the field's only one. */
    method SetFieldError(f: string, e: ValidationError)
      modifies this
      ensures Snapshot() == old(Snapshot()).ClearField(f).AddField(f, e)
      ensures Snapshot().FieldGet(f) == {e}
    {
      ClearField(f);
      AddFieldError(f, e);
    }

    /** decideRequiredError(String): a null, empty or blank string is an error. */
    method DecideRequiredErrorString(f: string, value: Option<string>) returns (r: bool)
      modifies this
      ensures r == Blank(value)
      ensures Snapshot() == if r then old(Snapshot()).AddField(f, RequiredError) else old(Snapshot())
    {
      if Blank(value) {
        AddFieldError(f, RequiredError);
        return true;
      }
      return false;
    }

    /** decideRequiredError(Object): only null is an error. */
    method DecideRequiredError(f: string, value: Value) returns (r: bool)
      modifies this
      ensures r == (value == Null)
      ensures Snapshot() == if r then old(Snapshot()).AddField(f, RequiredError) else old(Snapshot())
    {
      if value == Null {
        AddFieldError(f, RequiredError);
        return true;
      }
      return false;
    }

    /** decideLengthError: a non-null string longer than maxLength is an error carrying maxLength. */
    method DecideLengthError(f: string, value: Option<string>, maxLength: int) returns (r: bool)
      modifies this
      ensures r == (value.Some? && |value.value| > maxLength)
      ensures Snapshot() == if r then old(Snapshot()).AddField(f, MaxLengthError(maxLength)) else old(Snapshot())
    {
      if value.None? {
        return false;
      }
      if |value.value| > maxLength {
        AddFieldError(f, MaxLengthError(maxLength));
        return true;
      }
      return false;
    }

    method DecideRangeError(f: string, value: Option<real>, min: Option<real>, minInclusive: bool,
                            max: Option<real>, maxInclusive: bool) returns (r: bool)
      modifies this
      ensures r == RangeError(value, min, minInclusive, max, maxInclusive).Some?
      ensures Snapshot() == if r then old(Snapshot()).AddField(f, RangeError(value, min, minInclusive, max, maxInclusive).value)
                            else old(Snapshot())
    {
      var err := RangeError(value, min, minInclusive, max, maxInclusive);
      if err.Some? {
        AddFieldError(f, err.value);
        return true;
      }
      return false;
    }

    method AddUniqueError(f: string)
      modifies this
      ensures Snapshot() == old(Snapshot()).AddField(f, UniqueError)
    {
      AddFieldError(f, UniqueError);
    }

    predicate IsEmpty()
      reads this
    {
      global == {} && fields == map[]
    }

    method ClearField(f: string)
      modifies this
      ensures Snapshot() == old(Snapshot()).ClearField(f)
    {
      fields := fields - {f};
    }

    method Clear()
      modifies this
      ensures Snapshot() == NoErrors
    {
      global := {};
      fields := map[];
    }

    /** throwExceptionOnError: the errors a thrown ValidationException carries, or None when nothing was registered. */
    method ThrowExceptionOnError() returns (thrown: Option<ErrorSet>)
      ensures thrown.None? <==> Snapshot().IsEmpty()
      ensures thrown.Some? ==> thrown.value == Snapshot()
    {
      if !IsEmpty() {
        return Some(Snapshot());
      }
      return None;
    }
  }
}
