/**
 * AnnotationBasedValidator: validates an entity against the restrictions its
 * annotations declare. Not-null and maximum-length restrictions come from
 * @NotNull and @Column; unique restrictions come from @Column(unique = true) and
 * from the unique constraints of @Table. The unique restrictions are checked by
 * one JPQL query that ORs one term per constraint group; every stored entity the
 * query returns that agrees with the validated one on a whole group gives each
 * field of that group a "unique" error.
 */
module AnnotationValidation {
  import opened Common
  import opened Text
  import opened ErrorRegistry
  import opened Persistence

  /** The restriction of one field: required, and at most maxLength characters (None: no limit). */
  datatype FieldRestriction = FieldRestriction(notNull: bool, maxLength: Option<int>)

  /**
   * One entry of uniqueConstraintRestrictions: its key (the comma-joined field names
   * of a @Table constraint, or the field's name for @Column(unique = true)) and the
   * names of the group's fields, each once.
   */
  datatype UniqueEntry = UniqueEntry(key: string, members: seq<string>)

  // ---------------------------------------------------------------------------
  // The restriction maps (built once, by the constructor)
  // ---------------------------------------------------------------------------

  /** The group an entry with this key holds, if any (Map.get). */
  function Find(es: seq<UniqueEntry>, key: string): Option<seq<string>>
  {
    if es == [] then None
    else if es[0].key == key then Some(es[0].members)
    else Find(es[1..], key)
  }

  predicate DistinctKeys(es: seq<UniqueEntry>)
  {
    forall i, j :: 0 <= i < j < |es| ==> es[i].key != es[j].key
  }

  /** Map.put: replaces the group stored under `key` where it stands, or appends a new entry. */
  function Put(es: seq<UniqueEntry>, key: string, members: seq<string>): seq<UniqueEntry>
  {
    if es == [] then [UniqueEntry(key, members)]
    else if es[0].key == key then [UniqueEntry(key, members)] + es[1..]
    else [es[0]] + Put(es[1..], key, members)
  }

  /** Put behaves as a map update: the key now gives the new group, every other key what it gave before. */
  lemma PutIsMapUpdate(es: seq<UniqueEntry>, key: string, members: seq<string>)
    ensures Find(Put(es, key, members), key) == Some(members)
    ensures forall k :: k != key ==> Find(Put(es, key, members), k) == Find(es, k)
    ensures DistinctKeys(es) ==> DistinctKeys(Put(es, key, members))
    ensures forall i :: 0 <= i < |Put(es, key, members)| ==>
              Put(es, key, members)[i] == UniqueEntry(key, members) || Put(es, key, members)[i] in es
  {
    PutFinds(es, key, members);
    PutEntries(es, key, members);
    if DistinctKeys(es) {
      PutKeepsDistinct(es, key, members);
    }
  }

  lemma {:induction false} PutFinds(es: seq<UniqueEntry>, key: string, members: seq<string>)
    ensures Find(Put(es, key, members), key) == Some(members)
    ensures forall k :: k != key ==> Find(Put(es, key, members), k) == Find(es, k)
  {
    if es != [] && es[0].key != key {
      PutFinds(es[1..], key, members);
      var r := Put(es, key, members);
      assert r[1..] == Put(es[1..], key, members);
    } else if es != [] {
      var r := Put(es, key, members);
      assert r[1..] == es[1..];
    }
  }

  lemma {:induction false} PutEntries(es: seq<UniqueEntry>, key: string, members: seq<string>)
    ensures |Put(es, key, members)| >= 1
    ensures forall i :: 0 <= i < |Put(es, key, members)| ==>
              Put(es, key, members)[i] == UniqueEntry(key, members) || Put(es, key, members)[i] in es
  {
    if es != [] && es[0].key != key {
      PutEntries(es[1..], key, members);
      var r := Put(es, key, members);
      forall i | 0 < i < |r|
        ensures r[i] == UniqueEntry(key, members) || r[i] in es
      {
        assert r[i] == Put(es[1..], key, members)[i - 1];
      }
    } else if es != [] {
      var r := Put(es, key, members);
      forall i | 0 < i < |r|
        ensures r[i] in es
      {
        assert r[i] == es[i];
      }
    }
  }

  lemma {:induction false} PutKeepsDistinct(es: seq<UniqueEntry>, key: string, members: seq<string>)
    requires DistinctKeys(es)
    ensures DistinctKeys(Put(es, key, members))
  {
    if es != [] && es[0].key != key {
      assert DistinctKeys(es[1..]);
      PutKeepsDistinct(es[1..], key, members);
      PutFinds(es[1..], key, members);
      var r := Put(es, key, members);
      assert r[1..] == Put(es[1..], key, members);
      forall j | 0 < j < |r|
        ensures r[0].key != r[j].key
      {
        assert r[j] == r[1..][j - 1];
        FindAbsent(es[1..], es[0].key);
        FindAbsent(r[1..], es[0].key);
      }
    } else if es != [] {
      var r := Put(es, key, members);
      forall i, j | 0 <= i < j < |r|
        ensures r[i].key != r[j].key
      {
        assert r[j] == es[j];
        if i > 0 {
          assert r[i] == es[i];
        }
      }
    }
  }

  /** With distinct keys, a key is found exactly when some entry carries it. */
  lemma {:induction false} FindAbsent(es: seq<UniqueEntry>, key: string)
    ensures Find(es, key).None? <==> forall i :: 0 <= i < |es| ==> es[i].key != key
  {
    if es != [] && es[0].key != key {
      FindAbsent(es[1..], key);
      assert forall i :: 0 < i < |es| ==> es[i] == es[1..][i - 1];
    }
  }

  /** findFieldByName's filter: the column name is the field's @JoinColumn name, its @Column name or its own name. */
  predicate MatchesColumn(f: PropertyDecl, columnName: string)
  {
    (f.joinColumn.Some? && f.joinColumn.value == columnName)
    || (f.column.Some? && f.column.value.name == columnName)
    || f.name == columnName
  }

  /** findFieldByName: the first field (in getAllFieldsList order) the column name refers to. */
  function FindFieldByName(fields: seq<PropertyDecl>, columnName: string): (r: Option<PropertyDecl>)
    ensures r.Some? ==> r.value in fields && MatchesColumn(r.value, columnName)
    ensures r.None? <==> forall i :: 0 <= i < |fields| ==> !MatchesColumn(fields[i], columnName)
  {
    if fields == [] then None
    else if MatchesColumn(fields[0], columnName) then Some(fields[0])
    else FindFieldByName(fields[1..], columnName)
  }

  /** Every column name of the constraint refers to a field (otherwise Optional.get throws). */
  predicate Resolvable(fields: seq<PropertyDecl>, columnNames: seq<string>)
  {
    forall j :: 0 <= j < |columnNames| ==> FindFieldByName(fields, columnNames[j]).Some?
  }

  predicate TableResolvable(info: ClassInfo)
  {
    forall c :: 0 <= c < |info.uniqueConstraints| ==> Resolvable(info.fields, info.uniqueConstraints[c])
  }

  /** The list fieldNames: the names of the fields the column names resolve to, duplicates kept. */
  function ResolvedNames(fields: seq<PropertyDecl>, columnNames: seq<string>): (r: seq<string>)
    requires Resolvable(fields, columnNames)
    ensures |r| == |columnNames|
  {
    if columnNames == [] then []
    else ResolvedNames(fields, columnNames[..|columnNames| - 1])
         + [FindFieldByName(fields, columnNames[|columnNames| - 1]).value.name]
  }

  /** HashMap.put on a map keyed by field name: a name already present keeps its place. */
  function AddMember(members: seq<string>, name: string): seq<string>
  {
    if name in members then members else members + [name]
  }

  /** The uniqueGroup map of one @Table constraint: the resolved field names, each once. */
  function GroupOf(fields: seq<PropertyDecl>, columnNames: seq<string>): seq<string>
    requires Resolvable(fields, columnNames)
  {
    if columnNames == [] then []
    else AddMember(GroupOf(fields, columnNames[..|columnNames| - 1]),
                   FindFieldByName(fields, columnNames[|columnNames| - 1]).value.name)
  }

  predicate NoDuplicates(s: seq<string>)
  {
    forall i, j :: 0 <= i < j < |s| ==> s[i] != s[j]
  }

  /** A constraint's group holds each field its column names resolve to, and each only once. */
  lemma {:induction false} GroupOfMeaning(fields: seq<PropertyDecl>, columnNames: seq<string>)
    requires Resolvable(fields, columnNames)
    ensures NoDuplicates(GroupOf(fields, columnNames))
    ensures forall m :: m in GroupOf(fields, columnNames) <==> m in ResolvedNames(fields, columnNames)
  {
    if columnNames != [] {
      var init := columnNames[..|columnNames| - 1];
      assert Resolvable(fields, init) by {
        forall j | 0 <= j < |init| ensures FindFieldByName(fields, init[j]).Some? {
          assert init[j] == columnNames[j];
        }
      }
      GroupOfMeaning(fields, init);
    }
  }

  /** The entries processTableAnnotation puts, constraint after constraint. */
  function TableEntries(fields: seq<PropertyDecl>, constraints: seq<seq<string>>): seq<UniqueEntry>
    requires forall c :: 0 <= c < |constraints| ==> Resolvable(fields, constraints[c])
  {
    if constraints == [] then []
    else
      var last := constraints[|constraints| - 1];
      Put(TableEntries(fields, constraints[..|constraints| - 1]), Join(ResolvedNames(fields, last), ","), GroupOf(fields, last))
  }

  /** The key processTableAnnotation stores a constraint under: its resolved field names, comma-joined. */
  function TableKey(fields: seq<PropertyDecl>, columnNames: seq<string>): string
    requires Resolvable(fields, columnNames)
  {
    Join(ResolvedNames(fields, columnNames), ",")
  }

  /** The (key, group) pair each constraint puts, in order. */
  function TablePairs(fields: seq<PropertyDecl>, constraints: seq<seq<string>>): (r: seq<UniqueEntry>)
    requires forall c :: 0 <= c < |constraints| ==> Resolvable(fields, constraints[c])
    ensures |r| == |constraints|
    ensures forall c :: 0 <= c < |r| ==> r[c] == UniqueEntry(TableKey(fields, constraints[c]), GroupOf(fields, constraints[c]))
  {
    if constraints == [] then []
    else
      var n := |constraints| - 1;
      TablePairs(fields, constraints[..n]) + [UniqueEntry(TableKey(fields, constraints[n]), GroupOf(fields, constraints[n]))]
  }

  /** Map.put of each pair in turn, starting from the empty map. */
  function PutAll(pairs: seq<UniqueEntry>): seq<UniqueEntry>
  {
    if pairs == [] then []
    else
      var n := |pairs| - 1;
      Put(PutAll(pairs[..n]), pairs[n].key, pairs[n].members)
  }

  lemma {:induction false} TableEntriesArePuts(fields: seq<PropertyDecl>, constraints: seq<seq<string>>)
    requires forall c :: 0 <= c < |constraints| ==> Resolvable(fields, constraints[c])
    ensures TableEntries(fields, constraints) == PutAll(TablePairs(fields, constraints))
  {
    if constraints != [] {
      var n := |constraints| - 1;
      TableEntriesArePuts(fields, constraints[..n]);
      assert TablePairs(fields, constraints)[..n] == TablePairs(fields, constraints[..n]);
    }
  }

  /** Puts never leave a key twice. */
  lemma {:induction false} PutAllDistinct(pairs: seq<UniqueEntry>)
    ensures DistinctKeys(PutAll(pairs))
  {
    if pairs != [] {
      var n := |pairs| - 1;
      PutAllDistinct(pairs[..n]);
      PutIsMapUpdate(PutAll(pairs[..n]), pairs[n].key, pairs[n].members);
    }
  }

  /** After the puts, a key is present exactly when some pair carried it. */
  lemma {:induction false} PutAllKeys(pairs: seq<UniqueEntry>, key: string)
    ensures Find(PutAll(pairs), key).None? <==> forall i :: 0 <= i < |pairs| ==> pairs[i].key != key
  {
    if pairs != [] {
      var n := |pairs| - 1;
      PutAllKeys(pairs[..n], key);
      PutIsMapUpdate(PutAll(pairs[..n]), pairs[n].key, pairs[n].members);
      assert forall i :: 0 <= i < n ==> pairs[..n][i] == pairs[i];
    }
  }

  /** After the puts, a present key holds the group of the last pair carrying it. */
  lemma {:induction false} PutAllLast(pairs: seq<UniqueEntry>, key: string)
    ensures Find(PutAll(pairs), key).Some? ==>
              exists i :: 0 <= i < |pairs| && pairs[i].key == key && Find(PutAll(pairs), key) == Some(pairs[i].members)
                          && forall j :: i < j < |pairs| ==> pairs[j].key != key
  {
    if pairs != [] {
      var n := |pairs| - 1;
      var init := pairs[..n];
      PutAllLast(init, key);
      PutIsMapUpdate(PutAll(init), pairs[n].key, pairs[n].members);
      if pairs[n].key != key && Find(PutAll(init), key).Some? {
        var i :| 0 <= i < n && init[i].key == key && Find(PutAll(init), key) == Some(init[i].members)
                 && forall j :: i < j < n ==> init[j].key != key;
        assert pairs[i] == init[i];
        assert forall j :: i < j < n ==> pairs[j] == init[j];
      }
    }
  }

  /**
   * The table entries form a map: no key twice; a key is present exactly when some
   * constraint resolves to it, and it holds the group of the LAST such constraint
   * (two constraints naming the same fields leave one entry).
   */
  lemma TableEntriesMeaning(fields: seq<PropertyDecl>, constraints: seq<seq<string>>, key: string)
    requires forall c :: 0 <= c < |constraints| ==> Resolvable(fields, constraints[c])
    ensures DistinctKeys(TableEntries(fields, constraints))
    ensures Find(TableEntries(fields, constraints), key).None? <==>
              forall c :: 0 <= c < |constraints| ==> TableKey(fields, constraints[c]) != key
    ensures Find(TableEntries(fields, constraints), key).Some? ==>
              exists c :: 0 <= c < |constraints| && LastWithKey(fields, constraints, c, key)
                          && Find(TableEntries(fields, constraints), key) == Some(GroupOf(fields, constraints[c]))
  {
    var pairs := TablePairs(fields, constraints);
    TableEntriesArePuts(fields, constraints);
    PutAllDistinct(pairs);
    PutAllKeys(pairs, key);
    PutAllLast(pairs, key);
    if Find(PutAll(pairs), key).Some? {
      var i :| 0 <= i < |pairs| && pairs[i].key == key && Find(PutAll(pairs), key) == Some(pairs[i].members)
               && forall j :: i < j < |pairs| ==> pairs[j].key != key;
      assert LastWithKey(fields, constraints, i, key);
    }
  }

  /** Constraint c resolves to the key, and no later constraint does. */
  predicate LastWithKey(fields: seq<PropertyDecl>, constraints: seq<seq<string>>, c: int, key: string)
    requires forall c :: 0 <= c < |constraints| ==> Resolvable(fields, constraints[c])
    requires 0 <= c < |constraints|
  {
    TableKey(fields, constraints[c]) == key
    && forall d :: c < d < |constraints| ==> TableKey(fields, constraints[d]) != key
  }

  /** checkLengthType: String fields and collections whose element type is String. */
  predicate CheckLengthType(k: Kind)
  {
    k.StringKind? || (k.CollectionKind? && k.elemIsString)
  }

  /** The restriction processFieldAnnotation records for one field, if any. */
  function RestrictionOf(f: PropertyDecl): Option<FieldRestriction>
  {
    var notNull := f.notNull || (f.column.Some? && !f.column.value.nullable);
    var length := if CheckLengthType(f.kind) && f.column.Some? then Some(f.column.value.length) else None;
    if notNull || length.Some? then Some(FieldRestriction(notNull, length)) else None
  }

  /** The fieldRestrictions map after processFieldAnnotation (a later field of the same name overwrites). */
  function FieldRestrictionsOf(fields: seq<PropertyDecl>): map<string, FieldRestriction>
  {
    if fields == [] then map[]
    else
      var init := FieldRestrictionsOf(fields[..|fields| - 1]);
      var f := fields[|fields| - 1];
      if RestrictionOf(f).Some? then init[f.name := RestrictionOf(f).value] else init
  }

  /**
   * A field name has a restriction exactly when some field of that name declares one,
   * and it is the restriction of the last such field; the restriction is "required"
   * exactly for @NotNull or @Column(nullable = false), and has a length only for
   * string-like fields with @Column.
   */
  lemma {:induction false} FieldRestrictionsMeaning(fields: seq<PropertyDecl>, name: string)
    ensures name in FieldRestrictionsOf(fields) <==>
              exists i :: 0 <= i < |fields| && fields[i].name == name && RestrictionOf(fields[i]).Some?
    ensures name in FieldRestrictionsOf(fields) ==>
              exists i :: 0 <= i < |fields| && fields[i].name == name
                          && RestrictionOf(fields[i]).Some?
                          && FieldRestrictionsOf(fields)[name] == RestrictionOf(fields[i]).value
                          && forall j :: i < j < |fields| ==> fields[j].name != name || RestrictionOf(fields[j]).None?
  {
    if fields != [] {
      var init := fields[..|fields| - 1];
      FieldRestrictionsMeaning(init, name);
      assert forall i :: 0 <= i < |init| ==> init[i] == fields[i];
      var last := |fields| - 1;
      if fields[last].name == name && RestrictionOf(fields[last]).Some? {
        assert FieldRestrictionsOf(fields)[name] == RestrictionOf(fields[last]).value;
      } else if name in FieldRestrictionsOf(init) {
        var i :| 0 <= i < |init| && init[i].name == name && RestrictionOf(init[i]).Some?
                 && FieldRestrictionsOf(init)[name] == RestrictionOf(init[i]).value
                 && forall j :: i < j < |init| ==> init[j].name != name || RestrictionOf(init[j]).None?;
        assert FieldRestrictionsOf(fields)[name] == RestrictionOf(fields[i]).value;
      }
    }
  }

  /** A field restriction requires a value exactly when @NotNull or @Column(nullable = false) says so. */
  lemma RestrictionOfMeaning(f: PropertyDecl)
    ensures RestrictionOf(f).Some? <==> f.notNull || (f.column.Some? && (!f.column.value.nullable || CheckLengthType(f.kind)))
    ensures RestrictionOf(f).Some? ==>
              (RestrictionOf(f).value.notNull <==> f.notNull || (f.column.Some? && !f.column.value.nullable))
              && (RestrictionOf(f).value.maxLength.Some? <==> f.column.Some? && CheckLengthType(f.kind))
  {
  }

  /** The unique entries after processFieldAnnotation: each @Column(unique = true) field puts a group of its own. */
  function FieldUniqueEntries(entries: seq<UniqueEntry>, fields: seq<PropertyDecl>): seq<UniqueEntry>
  {
    if fields == [] then entries
    else
      var init := FieldUniqueEntries(entries, fields[..|fields| - 1]);
      var f := fields[|fields| - 1];
      if f.column.Some? && f.column.value.unique then Put(init, f.name, [f.name]) else init
  }

  /** processTableAnnotation: one entry per @Table unique constraint, keyed by its comma-joined field names. */
  method ProcessTableAnnotation(info: ClassInfo) returns (entries: seq<UniqueEntry>)
    requires TableResolvable(info)
    ensures entries == TableEntries(info.fields, info.uniqueConstraints)
  {
    entries := [];
    var constraints := info.uniqueConstraints;
    var c := 0;
    while c < |constraints|
      invariant 0 <= c <= |constraints|
      invariant entries == TableEntries(info.fields, constraints[..c])
    {
      var columnNames := constraints[c];
      var uniqueGroup: seq<string> := [];
      var fieldNames: seq<string> := [];
      var j := 0;
      while j < |columnNames|
        invariant 0 <= j <= |columnNames|
        invariant Resolvable(info.fields, columnNames[..j])
        invariant fieldNames == ResolvedNames(info.fields, columnNames[..j])
        invariant uniqueGroup == GroupOf(info.fields, columnNames[..j])
      {
        var field := FindFieldByName(info.fields, columnNames[j]).value;
        assert columnNames[..j + 1][..j] == columnNames[..j];
        uniqueGroup := AddMember(uniqueGroup, field.name);
        fieldNames := fieldNames + [field.name];
        j := j + 1;
      }
      assert columnNames[..j] == columnNames;
      assert constraints[..c + 1][..c] == constraints[..c];
      entries := Put(entries, Join(fieldNames, ","), uniqueGroup);
      c := c + 1;
    }
    assert constraints[..c] == constraints;
  }

  /** processFieldAnnotation: a restriction per restricted field, a single-field group per unique column. */
  method ProcessFieldAnnotation(fields: seq<PropertyDecl>, entries: seq<UniqueEntry>)
    returns (restrictions: map<string, FieldRestriction>, unique: seq<UniqueEntry>)
    ensures restrictions == FieldRestrictionsOf(fields)
    ensures unique == FieldUniqueEntries(entries, fields)
  {
    restrictions := map[];
    unique := entries;
    var i := 0;
    while i < |fields|
      invariant 0 <= i <= |fields|
      invariant restrictions == FieldRestrictionsOf(fields[..i])
      invariant unique == FieldUniqueEntries(entries, fields[..i])
    {
      var field := fields[i];
      var notNull := field.notNull;
      var length: Option<int> := None;
      if field.column.Some? {
        notNull := notNull || !field.column.value.nullable;
        if field.column.value.unique {
          unique := Put(unique, field.name, [field.name]);
        }
      }
      if CheckLengthType(field.kind) && field.column.Some? {
        length := Some(field.column.value.length);
      }
      assert fields[..i + 1][..i] == fields[..i];
      if notNull || length.Some? {
        restrictions := restrictions[field.name := FieldRestriction(notNull, length)];
      }
      i := i + 1;
    }
    assert fields[..i] == fields;
  }

  // ---------------------------------------------------------------------------
  // Field restrictions (validateFieldRestrictions)
  // ---------------------------------------------------------------------------

  /** Some non-empty string item of the collection is longer than maxLength (null and empty items are skipped). */
  predicate TooLongItem(items: seq<Value>, maxLength: int)
  {
    exists i :: 0 <= i < |items| && items[i].Str? && items[i].s != "" && |items[i].s| > maxLength
  }

  /** The errors one field's restriction raises for its value. */
  function FieldErrors(r: FieldRestriction, v: Value): set<ValidationError>
  {
    (if r.notNull && v == Null then {RequiredError} else {})
    + (if v.Str? then
         (if r.maxLength.Some? && |v.s| > r.maxLength.value then {MaxLengthError(r.maxLength.value)} else {})
         + (if r.notNull && v.s == "" then {RequiredError} else {})
       else if v.Coll? && r.maxLength.Some? && TooLongItem(v.items, r.maxLength.value) then
         {MaxLengthError(r.maxLength.value)}
       else {})
  }

  /**
   * A required field fails for null and for the empty string only (a blank string
   * passes); the length limit fails for a longer string or a collection holding a
   * longer non-empty string; nothing else is ever raised.
   */
  lemma FieldErrorsMeaning(r: FieldRestriction, v: Value)
    ensures RequiredError in FieldErrors(r, v) <==> r.notNull && (v == Null || v == Str(""))
    ensures r.maxLength.Some? ==>
              (MaxLengthError(r.maxLength.value) in FieldErrors(r, v) <==>
                 (v.Str? && |v.s| > r.maxLength.value) || (v.Coll? && TooLongItem(v.items, r.maxLength.value)))
    ensures forall e :: e in FieldErrors(r, v) ==>
              e == RequiredError || (r.maxLength.Some? && e == MaxLengthError(r.maxLength.value))
  {
  }

  /** One field's checks, in the order validateFieldRestrictions makes them. */
  method CheckField(f: string, r: FieldRestriction, v: Value, errors: ValidationErrors)
    modifies errors
    ensures errors.Snapshot() == old(errors.Snapshot()).AddFieldAll(f, FieldErrors(r, v))
  {
    ghost var before := errors.Snapshot();
    ghost var added: set<ValidationError> := {};
    if r.notNull {
      var missing := errors.DecideRequiredError(f, v);
      if missing {
        AddFieldStep(before, f, added, RequiredError);
        added := added + {RequiredError};
      }
    }
    if v.Str? {
      if r.maxLength.Some? {
        var tooLong := errors.DecideLengthError(f, Some(v.s), r.maxLength.value);
        if tooLong {
          AddFieldStep(before, f, added, MaxLengthError(r.maxLength.value));
          added := added + {MaxLengthError(r.maxLength.value)};
        }
      }
      if r.notNull && v.s == "" {
        errors.AddFieldError(f, RequiredError);
        AddFieldStep(before, f, added, RequiredError);
        added := added + {RequiredError};
      }
    } else if v.Coll? && r.maxLength.Some? {
      if TooLongItem(v.items, r.maxLength.value) {
        errors.AddFieldError(f, MaxLengthError(r.maxLength.value));
        AddFieldStep(before, f, added, MaxLengthError(r.maxLength.value));
        added := added + {MaxLengthError(r.maxLength.value)};
      }
    }
    assert added == FieldErrors(r, v);
  }

  /** The errors the field restrictions raise for an entity, by field (fields without errors are absent). */
  function FieldErrorMap(restrictions: map<string, FieldRestriction>, entity: EntityState): map<string, set<ValidationError>>
  {
    map f | f in restrictions && FieldErrors(restrictions[f], entity.Get(f)) != {} :: FieldErrors(restrictions[f], entity.Get(f))
  }

  // ---------------------------------------------------------------------------
  // Unique constraints (validateUniqueConstraintRestrictions)
  // ---------------------------------------------------------------------------

  /** The JPQL expression for one group member: "x.f IS NULL" or "x.f = :f". */
  function Expression(name: string, v: Value): string
  {
    if v == Null then "x." + name + " IS NULL" else "x." + name + " = :" + name
  }

  function Expressions(members: seq<string>, entity: EntityState): (r: seq<string>)
    ensures |r| == |members|
  {
    if members == [] then []
    else Expressions(members[..|members| - 1], entity) + [Expression(members[|members| - 1], entity.Get(members[|members| - 1]))]
  }

  /** The i-th expression is the one of the i-th member. */
  lemma {:induction false} ExpressionsAt(members: seq<string>, entity: EntityState, i: nat)
    requires i < |members|
    ensures Expressions(members, entity)[i] == Expression(members[i], entity.Get(members[i]))
  {
    if i < |members| - 1 {
      ExpressionsAt(members[..|members| - 1], entity, i);
    }
  }

  function NullCount(members: seq<string>, entity: EntityState): nat
  {
    if members == [] then 0
    else NullCount(members[..|members| - 1], entity) + (if entity.Get(members[|members| - 1]) == Null then 1 else 0)
  }

  /** All members are null exactly when the null count reaches the group's size. */
  lemma {:induction false} NullCountMeaning(members: seq<string>, entity: EntityState)
    ensures NullCount(members, entity) <= |members|
    ensures NullCount(members, entity) == |members| <==> forall i :: 0 <= i < |members| ==> entity.Get(members[i]) == Null
  {
    if members != [] {
      var init := members[..|members| - 1];
      NullCountMeaning(init, entity);
      assert forall i :: 0 <= i < |init| ==> init[i] == members[i];
    }
  }

  /** Some member of the group already has a field error: the group is left out of the query. */
  predicate Skipped(members: seq<string>, es: ErrorSet)
  {
    exists i :: 0 <= i < |members| && members[i] in es.fields
  }

  /** The group contributes a term: no member has an error and not every member is null. */
  predicate Queried(g: UniqueEntry, entity: EntityState, es: ErrorSet)
  {
    !Skipped(g.members, es) && NullCount(g.members, entity) < |g.members|
  }

  /** A group's term: its expressions joined with AND, parenthesised when there is more than one. */
  function Term(members: seq<string>, entity: EntityState): string
    requires |members| >= 1
  {
    var exprs := Expressions(members, entity);
    if |exprs| > 1 then "(" + Join(exprs, " AND ") + ")" else exprs[0]
  }

  /** The groups that contribute a term, in iteration order. */
  function QueriedGroups(groups: seq<UniqueEntry>, entity: EntityState, es: ErrorSet): (r: seq<UniqueEntry>)
    ensures forall i :: 0 <= i < |r| ==> r[i] in groups && Queried(r[i], entity, es)
  {
    if groups == [] then []
    else
      var init := QueriedGroups(groups[..|groups| - 1], entity, es);
      var g := groups[|groups| - 1];
      if Queried(g, entity, es) then init + [g] else init
  }

  /** The terms of the where clause, in order. */
  function WhereTerms(groups: seq<UniqueEntry>, entity: EntityState, es: ErrorSet): seq<string>
  {
    if groups == [] then []
    else
      var init := WhereTerms(groups[..|groups| - 1], entity, es);
      var g := groups[|groups| - 1];
      if Queried(g, entity, es) then init + [Term(g.members, entity)] else init
  }

  /** The where clause as the loop builds it: the first term, then " OR " and each later term. */
  function WhereClauseOf(groups: seq<UniqueEntry>, entity: EntityState, es: ErrorSet): string
  {
    if groups == [] then ""
    else
      var w := WhereClauseOf(groups[..|groups| - 1], entity, es);
      var g := groups[|groups| - 1];
      if Queried(g, entity, es) then
        var term := Term(g.members, entity);
        if !IsBlank(w) then Join([w, term], " OR ") else term
      else w
  }

  /** The names whose values go into the parameter map: the members of every group that is not skipped. */
  function ParamNames(groups: seq<UniqueEntry>, es: ErrorSet): set<string>
  {
    if groups == [] then {}
    else
      var g := groups[|groups| - 1];
      ParamNames(groups[..|groups| - 1], es) + (if Skipped(g.members, es) then {} else set m | m in g.members)
  }

  function ParamsOf(groups: seq<UniqueEntry>, entity: EntityState, es: ErrorSet): map<string, Value>
  {
    map k | k in ParamNames(groups, es) :: entity.Get(k)
  }

  /** The parameters the query binds: those whose value is not null. */
  function Bound(params: map<string, Value>): map<string, QueryParam>
  {
    map k | k in params && params[k] != Null :: Scalar(params[k])
  }

  function QueryText(entityName: string, whereClause: string): string
  {
    "select x from " + entityName + " x where " + whereClause
  }

  lemma {:induction false} JoinHead(parts: seq<string>, sep: string)
    requires parts != [] && parts[0] != ""
    ensures Join(parts, sep) != "" && Join(parts, sep)[0] == parts[0][0]
  {
  }

  /** A term starts with "(" or "x", so it is never blank. */
  lemma TermNotBlank(members: seq<string>, entity: EntityState)
    requires |members| >= 1
    ensures StartsWellFormed(Term(members, entity))
    ensures !IsBlank(Term(members, entity))
  {
    var exprs := Expressions(members, entity);
    ExpressionsAt(members, entity, 0);
    assert exprs[0][0] == 'x';
    if |exprs| > 1 {
      JoinHead(exprs, " AND ");
    }
    assert !IsJavaWhitespace(Term(members, entity)[0]);
  }

  /** A term or a clause that starts with "(" or "x". */
  predicate StartsWellFormed(t: string)
  {
    t != "" && t[0] in {'(', 'x'}
  }

  /** The clause built so far and the next term join into the clause with one more term. */
  lemma OrStep(ts: seq<string>, term: string)
    requires forall i :: 0 <= i < |ts| ==> StartsWellFormed(ts[i])
    requires StartsWellFormed(term)
    ensures (if !IsBlank(Join(ts, " OR ")) then Join([Join(ts, " OR "), term], " OR ") else term) == Join(ts + [term], " OR ")
  {
    JoinAppend(ts, term, " OR ");
    if ts != [] {
      NotBlankJoin(ts);
    }
  }

  /**
   * The where clause is the OR of the terms of the queried groups, one term per
   * queried group, each starting with "(" or "x".
   */
  lemma {:induction false} WhereClauseIsJoin(groups: seq<UniqueEntry>, entity: EntityState, es: ErrorSet)
    ensures WhereClauseOf(groups, entity, es) == Join(WhereTerms(groups, entity, es), " OR ")
    ensures |WhereTerms(groups, entity, es)| == |QueriedGroups(groups, entity, es)|
    ensures forall i :: 0 <= i < |WhereTerms(groups, entity, es)| ==> StartsWellFormed(WhereTerms(groups, entity, es)[i])
  {
    if groups != [] {
      var init := groups[..|groups| - 1];
      var g := groups[|groups| - 1];
      WhereClauseIsJoin(init, entity, es);
      if Queried(g, entity, es) {
        TermNotBlank(g.members, entity);
        OrStep(WhereTerms(init, entity, es), Term(g.members, entity));
      }
    }
  }

  /** No query is made (the where clause is blank) exactly when no group is queried. */
  lemma WhereClauseBlank(groups: seq<UniqueEntry>, entity: EntityState, es: ErrorSet)
    ensures IsBlank(WhereClauseOf(groups, entity, es)) <==> QueriedGroups(groups, entity, es) == []
  {
    WhereClauseIsJoin(groups, entity, es);
    var ts := WhereTerms(groups, entity, es);
    if ts != [] {
      NotBlankJoin(ts);
    } else {
      assert IsBlank("");
    }
  }

  /** A non-empty list of well-formed terms joins to a non-blank clause. */
  lemma NotBlankJoin(terms: seq<string>)
    requires terms != [] && StartsWellFormed(terms[0])
    ensures !IsBlank(Join(terms, " OR "))
  {
    JoinHead(terms, " OR ");
    assert !IsJavaWhitespace(Join(terms, " OR ")[0]);
  }

  /** The members of every group that is not skipped are parameter names. */
  lemma {:induction false} ParamNamesMeaning(groups: seq<UniqueEntry>, es: ErrorSet, k: string)
    ensures k in ParamNames(groups, es) <==>
              exists i :: 0 <= i < |groups| && !Skipped(groups[i].members, es) && k in groups[i].members
  {
    if groups != [] {
      var init := groups[..|groups| - 1];
      ParamNamesMeaning(init, es, k);
      assert forall i :: 0 <= i < |init| ==> init[i] == groups[i];
    }
  }

  /** The queried groups are the groups that pass Queried, in their order. */
  lemma {:induction false} QueriedGroupsMeaning(groups: seq<UniqueEntry>, entity: EntityState, es: ErrorSet, g: UniqueEntry)
    ensures g in QueriedGroups(groups, entity, es) <==> g in groups && Queried(g, entity, es)
  {
    if groups != [] {
      var init := groups[..|groups| - 1];
      QueriedGroupsMeaning(init, entity, es, g);
      assert groups == init + [groups[|groups| - 1]];
    }
  }

  /**
   * The query is well formed: a parameter is bound exactly when some queried group
   * has that member with a non-null value, which is exactly when some term names
   * it as ":name".
   */
  lemma BoundParametersAreNamed(groups: seq<UniqueEntry>, entity: EntityState, es: ErrorSet, k: string)
    ensures k in Bound(ParamsOf(groups, entity, es)) <==>
              exists g :: g in QueriedGroups(groups, entity, es) && k in g.members && entity.Get(k) != Null
  {
    ParamNamesMeaning(groups, es, k);
    if k in Bound(ParamsOf(groups, entity, es)) {
      var i :| 0 <= i < |groups| && !Skipped(groups[i].members, es) && k in groups[i].members;
      var g := groups[i];
      var j :| 0 <= j < |g.members| && g.members[j] == k;
      NullCountMeaning(g.members, entity);
      QueriedGroupsMeaning(groups, entity, es, g);
    }
    if exists g :: g in QueriedGroups(groups, entity, es) && k in g.members && entity.Get(k) != Null {
      var g :| g in QueriedGroups(groups, entity, es) && k in g.members && entity.Get(k) != Null;
      QueriedGroupsMeaning(groups, entity, es, g);
      var i :| 0 <= i < |groups| && groups[i] == g;
    }
  }

  /** Every member of the group has the same value in the parameter map (null when absent) and in the hit. */
  predicate GroupMatches(members: seq<string>, params: map<string, Value>, hit: EntityState)
  {
    forall i :: 0 <= i < |members| ==> Lookup(params, members[i]) == hit.Get(members[i])
  }

  /** The members that get the unique error: with the flag set, those whose value in the hit is an entity reference are left out. */
  function Reported(members: seq<string>, hit: EntityState, ignoreReferences: bool): set<string>
  {
    set m | m in members && !(ignoreReferences && hit.Get(m).Ref?)
  }

  /** buildUniqueGroupWithoutReferences: the members whose value in the hit is not an entity reference. */
  function WithoutReferences(members: seq<string>, hit: EntityState): (r: seq<string>)
    ensures forall m :: m in r <==> m in members && !hit.Get(m).Ref?
  {
    if members == [] then []
    else (if hit.Get(members[0]).Ref? then [] else [members[0]]) + WithoutReferences(members[1..], hit)
  }

  /** The fields one stored entity violates over the given groups (none for the entity itself). */
  function HitFields(entity: EntityState, hit: EntityState, groups: seq<UniqueEntry>,
                     params: map<string, Value>, ignoreReferences: bool): set<string>
  {
    if entity.Get("uuid") == hit.Get("uuid") || groups == [] then {}
    else
      var g := groups[|groups| - 1];
      HitFields(entity, hit, groups[..|groups| - 1], params, ignoreReferences)
      + (if GroupMatches(g.members, params, hit) then Reported(g.members, hit, ignoreReferences) else {})
  }

  /** The validated entity itself, or no group at all, marks nothing. */
  lemma NoHitFieldsOnSelf(entity: EntityState, hit: EntityState, groups: seq<UniqueEntry>,
                          params: map<string, Value>, flag: bool, marked: set<string>)
    requires entity.Get("uuid") == hit.Get("uuid") || groups == []
    ensures marked + HitFields(entity, hit, groups, params, flag) == marked
  {
  }

  lemma HitFieldsStep(entity: EntityState, hit: EntityState, groups: seq<UniqueEntry>, j: nat,
                      params: map<string, Value>, flag: bool)
    requires j < |groups| && entity.Get("uuid") != hit.Get("uuid")
    ensures HitFields(entity, hit, groups[..j + 1], params, flag)
         == HitFields(entity, hit, groups[..j], params, flag)
            + (if GroupMatches(groups[j].members, params, hit) then Reported(groups[j].members, hit, flag) else {})
  {
    assert groups[..j + 1][..j] == groups[..j];
  }

  /** The fields all query results violate over the given groups. */
  function ViolationFields(entity: EntityState, hits: seq<EntityState>, groups: seq<UniqueEntry>,
                           params: map<string, Value>, ignoreReferences: bool): set<string>
  {
    if hits == [] then {}
    else ViolationFields(entity, hits[..|hits| - 1], groups, params, ignoreReferences)
         + HitFields(entity, hits[|hits| - 1], groups, params, ignoreReferences)
  }

  lemma ViolationFieldsStep(entity: EntityState, hits: seq<EntityState>, h: nat, groups: seq<UniqueEntry>,
                            params: map<string, Value>, flag: bool)
    requires h < |hits|
    ensures ViolationFields(entity, hits[..h + 1], groups, params, flag)
         == ViolationFields(entity, hits[..h], groups, params, flag) + HitFields(entity, hits[h], groups, params, flag)
  {
    assert hits[..h + 1][..h] == hits[..h];
  }

  /**
   * The fields generateErrorsForViolatingEntity marks as written: every group is
   * compared with each result, also the groups the query left out because one of
   * their members already had an error or all of their values were null (an absent
   * parameter reads as null).
   */
  function UniqueViolationsAsWritten(entity: EntityState, hits: seq<EntityState>, groups: seq<UniqueEntry>,
                                     es: ErrorSet, ignoreReferences: bool): set<string>
  {
    ViolationFields(entity, hits, groups, ParamsOf(groups, entity, es), ignoreReferences)
  }

  /** The fields marked when only the groups the query was built from are compared. */
  function UniqueViolations(entity: EntityState, hits: seq<EntityState>, groups: seq<UniqueEntry>,
                            es: ErrorSet, ignoreReferences: bool): set<string>
  {
    ViolationFields(entity, hits, QueriedGroups(groups, entity, es), ParamsOf(groups, entity, es), ignoreReferences)
  }

  /** The stored entity `hit` is another entity that makes `m`, a member of group `g`, violate uniqueness. */
  predicate MarkedBy(entity: EntityState, hit: EntityState, g: UniqueEntry, params: map<string, Value>, flag: bool, m: string)
  {
    entity.Get("uuid") != hit.Get("uuid") && GroupMatches(g.members, params, hit) && m in Reported(g.members, hit, flag)
  }

  /** One stored entity: a field is marked exactly when it is reported for a matching group. */
  lemma {:induction false} HitFieldsMeaning(entity: EntityState, hit: EntityState, groups: seq<UniqueEntry>,
                                            params: map<string, Value>, flag: bool, m: string)
    ensures m in HitFields(entity, hit, groups, params, flag) <==>
              exists i :: 0 <= i < |groups| && MarkedBy(entity, hit, groups[i], params, flag, m)
  {
    if entity.Get("uuid") != hit.Get("uuid") && groups != [] {
      var init := groups[..|groups| - 1];
      HitFieldsMeaning(entity, hit, init, params, flag, m);
      assert forall i :: 0 <= i < |init| ==> init[i] == groups[i];
    }
  }

  lemma {:induction false} ViolationsOverHits(entity: EntityState, hits: seq<EntityState>, groups: seq<UniqueEntry>,
                                              params: map<string, Value>, flag: bool, m: string)
    ensures m in ViolationFields(entity, hits, groups, params, flag) <==>
              exists h, i :: 0 <= h < |hits| && 0 <= i < |groups| && MarkedBy(entity, hits[h], groups[i], params, flag, m)
  {
    if hits != [] {
      var init := hits[..|hits| - 1];
      ViolationsOverHits(entity, init, groups, params, flag, m);
      HitFieldsMeaning(entity, hits[|hits| - 1], groups, params, flag, m);
      assert forall h :: 0 <= h < |init| ==> init[h] == hits[h];
    }
  }

  /**
   * The stored entity `hit` is another entity (by UUID) that agrees with the
   * validated one on every field of `g`, a group that was queried, and `m` is a
   * field of `g` that is reported (with the flag set, only if it is not a reference).
   */
  predicate Violates(entity: EntityState, hit: EntityState, g: UniqueEntry, es: ErrorSet, flag: bool, m: string)
  {
    hit.Get("uuid") != entity.Get("uuid")
    && Queried(g, entity, es)
    && (forall j :: 0 <= j < |g.members| ==> hit.Get(g.members[j]) == entity.Get(g.members[j]))
    && m in g.members && !(flag && hit.Get(m).Ref?)
  }

  /** For a queried group, the parameter map holds the entity's own value of each member. */
  lemma QueriedMembersAreParams(groups: seq<UniqueEntry>, entity: EntityState, es: ErrorSet, g: UniqueEntry)
    requires g in QueriedGroups(groups, entity, es)
    ensures forall j :: 0 <= j < |g.members| ==> Lookup(ParamsOf(groups, entity, es), g.members[j]) == entity.Get(g.members[j])
  {
    QueriedGroupsMeaning(groups, entity, es, g);
    var i :| 0 <= i < |groups| && groups[i] == g;
    forall j | 0 <= j < |g.members|
      ensures g.members[j] in ParamNames(groups, es)
    {
      ParamNamesMeaning(groups, es, g.members[j]);
    }
  }

  /** For a queried group, matching the parameters is agreeing with the validated entity. */
  lemma MarkedByQueried(groups: seq<UniqueEntry>, entity: EntityState, hit: EntityState, es: ErrorSet,
                        g: UniqueEntry, flag: bool, m: string)
    requires g in QueriedGroups(groups, entity, es)
    ensures MarkedBy(entity, hit, g, ParamsOf(groups, entity, es), flag, m) <==> Violates(entity, hit, g, es, flag, m)
  {
    QueriedMembersAreParams(groups, entity, es, g);
    QueriedGroupsMeaning(groups, entity, es, g);
  }

  /**
   * The unique errors: a field is marked exactly when some stored entity other
   * than the validated one (by UUID) agrees with it on every field of a queried
   * group holding that field (a group with no earlier error and not all null),
   * and, with the flag set, that field of the stored entity is not a reference.
   */
  lemma UniqueViolationsMeaning(entity: EntityState, hits: seq<EntityState>, groups: seq<UniqueEntry>,
                                es: ErrorSet, flag: bool, m: string)
    ensures m in UniqueViolations(entity, hits, groups, es, flag) <==>
              exists h, g :: 0 <= h < |hits| && g in groups && Violates(entity, hits[h], g, es, flag, m)
  {
    var qs := QueriedGroups(groups, entity, es);
    var params := ParamsOf(groups, entity, es);
    ViolationsOverHits(entity, hits, qs, params, flag, m);
    if m in UniqueViolations(entity, hits, groups, es, flag) {
      var h, i :| 0 <= h < |hits| && 0 <= i < |qs| && MarkedBy(entity, hits[h], qs[i], params, flag, m);
      MarkedByQueried(groups, entity, hits[h], es, qs[i], flag, m);
    }
    if exists h, g :: 0 <= h < |hits| && g in groups && Violates(entity, hits[h], g, es, flag, m) {
      var h, g :| 0 <= h < |hits| && g in groups && Violates(entity, hits[h], g, es, flag, m);
      QueriedGroupsMeaning(groups, entity, es, g);
      var i :| 0 <= i < |qs| && qs[i] == g;
      MarkedByQueried(groups, entity, hits[h], es, g, flag, m);
    }
  }

  /** A name absent from the parameter map reads as null (Map.get). */
  lemma ParamsLookup(groups: seq<UniqueEntry>, entity: EntityState, es: ErrorSet, k: string)
    ensures Lookup(ParamsOf(groups, entity, es), k) == if k in ParamNames(groups, es) then entity.Get(k) else Null
  {
  }

  /**
   * As written, `hit` marks `m`, a member of `g`, when it is another entity (by
   * UUID) whose value for every member of `g` is the validated entity's value if
   * that member belongs to a group that was not skipped, and null otherwise.
   */
  predicate ViolatesAsWritten(entity: EntityState, hit: EntityState, g: UniqueEntry, groups: seq<UniqueEntry>,
                              es: ErrorSet, flag: bool, m: string)
  {
    hit.Get("uuid") != entity.Get("uuid")
    && (forall j :: 0 <= j < |g.members| ==>
          hit.Get(g.members[j]) == if g.members[j] in ParamNames(groups, es) then entity.Get(g.members[j]) else Null)
    && m in g.members && !(flag && hit.Get(m).Ref?)
  }

  /** The unique errors as written: every group (queried or not) is compared with every stored entity. */
  lemma UniqueViolationsAsWrittenMeaning(entity: EntityState, hits: seq<EntityState>, groups: seq<UniqueEntry>,
                                         es: ErrorSet, flag: bool, m: string)
    ensures m in UniqueViolationsAsWritten(entity, hits, groups, es, flag) <==>
              exists h, i :: 0 <= h < |hits| && 0 <= i < |groups| && ViolatesAsWritten(entity, hits[h], groups[i], groups, es, flag, m)
  {
    var params := ParamsOf(groups, entity, es);
    ViolationsOverHits(entity, hits, groups, params, flag, m);
    forall h, i | 0 <= h < |hits| && 0 <= i < |groups|
      ensures MarkedBy(entity, hits[h], groups[i], params, flag, m) <==> ViolatesAsWritten(entity, hits[h], groups[i], groups, es, flag, m)
    {
      forall x | x in groups[i].members {
        ParamsLookup(groups, entity, es, x);
      }
    }
  }

  /** Every group that is queried is also compared as written, so the intended marks are a subset of the written ones. */
  lemma IntendedWithinAsWritten(entity: EntityState, hits: seq<EntityState>, groups: seq<UniqueEntry>, es: ErrorSet, flag: bool)
    ensures UniqueViolations(entity, hits, groups, es, flag) <= UniqueViolationsAsWritten(entity, hits, groups, es, flag)
  {
    var params := ParamsOf(groups, entity, es);
    var qs := QueriedGroups(groups, entity, es);
    forall m | m in UniqueViolations(entity, hits, groups, es, flag)
      ensures m in UniqueViolationsAsWritten(entity, hits, groups, es, flag)
    {
      ViolationsOverHits(entity, hits, qs, params, flag, m);
      ViolationsOverHits(entity, hits, groups, params, flag, m);
      var h, i :| 0 <= h < |hits| && 0 <= i < |qs| && MarkedBy(entity, hits[h], qs[i], params, flag, m);
      QueriedGroupsMeaning(groups, entity, es, qs[i]);
      var k :| 0 <= k < |groups| && groups[k] == qs[i];
    }
  }

  /** The example of the findings: a laboratory whose name is taken by a stored one, both without a code. */
  function ExampleGroups(): seq<UniqueEntry>
  {
    [UniqueEntry("name", ["name"]), UniqueEntry("code", ["code"])]
  }

  function ExampleEntity(uuid: string): EntityState
  {
    EntityState(ClassInfo("Laboratory", "laboratories", [], []), map["uuid" := Id(uuid), "name" := Str("Lab A")])
  }

  /**
   * As written, a unique column that is null in both the validated entity and a
   * stored one is marked as soon as another group makes the query return that
   * entity: here "name" matches, and "code", null on both sides, is marked too.
   */
  lemma AllNullGroupMarkedAsWritten()
    ensures "code" in UniqueViolationsAsWritten(ExampleEntity("u1"), [ExampleEntity("u2")], ExampleGroups(), NoErrors, false)
  {
    var groups := ExampleGroups();
    var entity := ExampleEntity("u1");
    var stored := ExampleEntity("u2");
    var params := ParamsOf(groups, entity, NoErrors);
    assert entity.Get("code") == Null && stored.Get("code") == Null;
    assert !Skipped(groups[1].members, NoErrors);
    ParamNamesMeaning(groups, NoErrors, "code");
    assert Lookup(params, "code") == Null;
    assert MarkedBy(entity, stored, groups[1], params, false, "code");
    ViolationsOverHits(entity, [stored], groups, params, false, "code");
  }

  /** In the example only the name group reaches the query: the code group is all null. */
  lemma ExampleQueriedGroups()
    ensures QueriedGroups(ExampleGroups(), ExampleEntity("u1"), NoErrors) == [ExampleGroups()[0]]
  {
    var groups := ExampleGroups();
    var entity := ExampleEntity("u1");
    var g0 := groups[0];
    assert NullCount(g0.members, entity) == 0 by { assert g0.members[..0] == []; }
    assert NullCount(groups[1].members, entity) == 1 by { assert groups[1].members[..0] == []; }
    assert groups[..1] == [g0] && groups[..1][..0] == [] && groups[..2] == groups;
    assert QueriedGroups(groups[..1], entity, NoErrors) == [g0];
  }

  /** With the all-null group left out of the query, the same example marks the name only. */
  lemma AllNullGroupNotMarked()
    ensures UniqueViolations(ExampleEntity("u1"), [ExampleEntity("u2")], ExampleGroups(), NoErrors, false) == {"name"}
  {
    var groups := ExampleGroups();
    var entity := ExampleEntity("u1");
    var stored := ExampleEntity("u2");
    var params := ParamsOf(groups, entity, NoErrors);
    var g0 := groups[0];
    ExampleQueriedGroups();
    assert [stored][..0] == [] && [g0][..0] == [];
    ParamNamesMeaning(groups, NoErrors, "name");
    assert GroupMatches(g0.members, params, stored);
    assert Reported(g0.members, stored, false) == {"name"};
    assert HitFields(entity, stored, [g0], params, false) == {"name"};
  }

  // ---------------------------------------------------------------------------
  // The validator
  // ---------------------------------------------------------------------------

  /** The number of nulls, the expressions and the parameters of one group, collected member by member. */
  method CreateExpressionsCountingNulls(members: seq<string>, entity: EntityState, params: map<string, Value>)
    returns (nullValues: nat, expressions: seq<string>, newParams: map<string, Value>)
    requires forall k :: k in params ==> params[k] == entity.Get(k)
    ensures nullValues == NullCount(members, entity)
    ensures expressions == Expressions(members, entity)
    ensures newParams.Keys == params.Keys + Elements(members)
    ensures forall k :: k in newParams ==> newParams[k] == entity.Get(k)
  {
    nullValues := 0;
    expressions := [];
    newParams := params;
    var i := 0;
    while i < |members|
      invariant 0 <= i <= |members|
      invariant nullValues == NullCount(members[..i], entity)
      invariant expressions == Expressions(members[..i], entity)
      invariant newParams.Keys == params.Keys + Elements(members[..i])
      invariant forall k :: k in newParams ==> newParams[k] == entity.Get(k)
    {
      nullValues, expressions, newParams := CollectMember(members, i, entity, params, nullValues, expressions, newParams);
      i := i + 1;
    }
    assert members[..i] == members;
  }

  /** One iteration of the member loop: count a null, add the member's expression and its parameter. */
  method CollectMember(members: seq<string>, i: nat, entity: EntityState, ghost params: map<string, Value>,
                   nullValues: nat, expressions: seq<string>, newParams: map<string, Value>)
    returns (nullValues': nat, expressions': seq<string>, newParams': map<string, Value>)
    requires i < |members|
    requires nullValues == NullCount(members[..i], entity)
    requires expressions == Expressions(members[..i], entity)
    requires newParams.Keys == params.Keys + Elements(members[..i])
    requires forall k :: k in newParams ==> newParams[k] == entity.Get(k)
    ensures nullValues' == NullCount(members[..i + 1], entity)
    ensures expressions' == Expressions(members[..i + 1], entity)
    ensures newParams'.Keys == params.Keys + Elements(members[..i + 1])
    ensures forall k :: k in newParams' ==> newParams'[k] == entity.Get(k)
  {
    var name := members[i];
    var value := entity.Get(name);
    MemberStep(members, i, entity);
    nullValues' := nullValues;
    if value == Null {
      nullValues' := nullValues + 1;
    }
    expressions' := expressions + [Expression(name, value)];
    newParams' := newParams[name := value];
  }

  function Elements(s: seq<string>): set<string>
  {
    set x | x in s
  }

  /** One more member: its null (if it is one), its expression and its name are added. */
  lemma MemberStep(members: seq<string>, i: nat, entity: EntityState)
    requires i < |members|
    ensures NullCount(members[..i + 1], entity) == NullCount(members[..i], entity) + (if entity.Get(members[i]) == Null then 1 else 0)
    ensures Expressions(members[..i + 1], entity) == Expressions(members[..i], entity) + [Expression(members[i], entity.Get(members[i]))]
    ensures Elements(members[..i + 1]) == Elements(members[..i]) + {members[i]}
  {
    assert members[..i + 1][..i] == members[..i];
    assert members[..i + 1] == members[..i] + [members[i]];
  }

  /** The isValid loop of generateErrorsForViolatingEntity: some member differs between the parameters and the stored entity. */
  method GroupIsValid(members: seq<string>, parameters: map<string, Value>, hit: EntityState) returns (isValid: bool)
    ensures isValid <==> !GroupMatches(members, parameters, hit)
  {
    isValid := false;
    var k := 0;
    while k < |members|
      invariant 0 <= k <= |members|
      invariant isValid <==> exists t :: 0 <= t < k && Lookup(parameters, members[t]) != hit.Get(members[t])
    {
      var fieldValue := hit.Get(members[k]);
      isValid := isValid || Lookup(parameters, members[k]) != fieldValue;
      k := k + 1;
    }
  }

  /** uniqueGroup.forEach(addUniqueError): each listed field gets the unique error. */
  method AddUniqueErrors(uniqueGroup: seq<string>, errors: ValidationErrors, ghost es: ErrorSet, ghost marked: set<string>)
    requires errors.Snapshot() == es.AddToFields(marked, UniqueError)
    modifies errors
    ensures errors.Snapshot() == es.AddToFields(marked + (set x | x in uniqueGroup), UniqueError)
  {
    ghost var added: set<string> := {};
    var t := 0;
    while t < |uniqueGroup|
      invariant 0 <= t <= |uniqueGroup|
      invariant forall x :: x in added <==> x in uniqueGroup[..t]
      invariant errors.Snapshot() == es.AddToFields(marked + added, UniqueError)
    {
      errors.AddUniqueError(uniqueGroup[t]);
      AddToFieldsStep(es, marked + added, uniqueGroup[t], UniqueError);
      assert uniqueGroup[..t + 1] == uniqueGroup[..t] + [uniqueGroup[t]];
      assert marked + added + {uniqueGroup[t]} == marked + (added + {uniqueGroup[t]});
      added := added + {uniqueGroup[t]};
      t := t + 1;
    }
    assert uniqueGroup[..t] == uniqueGroup;
    assert added == (set x | x in uniqueGroup);
  }

  /** The state of the where-clause loop after the groups `done`. */
  predicate WhereState(done: seq<UniqueEntry>, entity: EntityState, es: ErrorSet,
                       parameters: map<string, Value>, whereClause: string)
  {
    parameters.Keys == ParamNames(done, es)
    && (forall k :: k in parameters ==> parameters[k] == entity.Get(k))
    && whereClause == WhereClauseOf(done, entity, es)
  }

  /** One round of the where-clause loop, for the group `g`. */
  method AddGroupTerm(g: UniqueEntry, skip: bool, entity: EntityState, ghost es: ErrorSet, ghost done: seq<UniqueEntry>,
                      parameters: map<string, Value>, whereClause: string)
    returns (parameters': map<string, Value>, whereClause': string)
    requires skip == Skipped(g.members, es)
    requires WhereState(done, entity, es, parameters, whereClause)
    ensures WhereState(done + [g], entity, es, parameters', whereClause')
  {
    assert (done + [g])[..|done|] == done;
    NullCountMeaning(g.members, entity);
    parameters', whereClause' := parameters, whereClause;
    if !skip {
      var nullValues, expressions;
      nullValues, expressions, parameters' := CreateExpressionsCountingNulls(g.members, entity, parameters);
      if nullValues != |g.members| {
        var term := if |expressions| > 1 then "(" + Join(expressions, " AND ") + ")" else expressions[0];
        whereClause' := if !IsBlank(whereClause) then Join([whereClause, term], " OR ") else term;
      }
    }
  }

  /**
   * The loop of validateUniqueConstraintRestrictions that builds the where clause:
   * groups with a member that already has an error are skipped; the others put
   * their values into the parameters and, unless all of them are null, add a term.
   */
  method BuildWhereClause(groups: seq<UniqueEntry>, entity: EntityState, errors: ValidationErrors)
    returns (parameters: map<string, Value>, whereClause: string)
    ensures parameters == ParamsOf(groups, entity, errors.Snapshot())
    ensures whereClause == WhereClauseOf(groups, entity, errors.Snapshot())
  {
    ghost var es := errors.Snapshot();
    parameters := map[];
    whereClause := "";
    var i := 0;
    while i < |groups|
      invariant 0 <= i <= |groups|
      invariant WhereState(groups[..i], entity, es, parameters, whereClause)
    {
      var g := groups[i];
      var skip := exists k :: 0 <= k < |g.members| && g.members[k] in errors.fields;
      assert groups[..i + 1] == groups[..i] + [g];
      parameters, whereClause := AddGroupTerm(g, skip, entity, es, groups[..i], parameters, whereClause);
      i := i + 1;
    }
    assert groups[..i] == groups;
    assert parameters == ParamsOf(groups, entity, es);
  }

  /**
   * An AnnotationBasedValidator for one entity class. Its restriction maps are
   * fixed when it is constructed.
   */
  /** The unique groups the constructor derives: @Table constraints first, then @Column(unique = true) fields. */
  function UniqueRestrictionsOf(info: ClassInfo): seq<UniqueEntry>
    requires TableResolvable(info)
  {
    FieldUniqueEntries(TableEntries(info.fields, info.uniqueConstraints), info.fields)
  }

  /** The registry after validateFieldRestrictions. */
  function FieldCheck(restrictions: map<string, FieldRestriction>, es: ErrorSet, entity: EntityState): ErrorSet
  {
    es.Merge(FieldErrorMap(restrictions, entity))
  }

  /** The registry after validateUniqueConstraintRestrictions, given what the query returns. */
  function UniqueCheck(entityName: string, groups: seq<UniqueEntry>, flag: bool, es: ErrorSet, entity: EntityState, db: Db): ErrorSet
  {
    var whereClause := WhereClauseOf(groups, entity, es);
    if IsBlank(whereClause) then es
    else
      var params := ParamsOf(groups, entity, es);
      var hits := db.query(QueryText(entityName, whereClause), Bound(params));
      es.AddToFields(UniqueViolationsAsWritten(entity, hits, groups, es, flag), UniqueError)
  }

  /** The registry after validate, for a validator built for info with the given flag. */
  function AnnotationCheck(info: ClassInfo, flag: bool, es: ErrorSet, entity: EntityState, db: Db): ErrorSet
    requires TableResolvable(info)
  {
    UniqueCheck(info.entityName, UniqueRestrictionsOf(info), flag, FieldCheck(FieldRestrictionsOf(info.fields), es, entity), entity, db)
  }

  /**
   * Validation only adds: no global error is added or removed, and every field
   * keeps the errors it had; a field gains only its own field-check errors or the unique error.
   */
  lemma AnnotationCheckOnlyAdds(info: ClassInfo, flag: bool, es: ErrorSet, entity: EntityState, db: Db)
    requires TableResolvable(info)
    ensures var r := AnnotationCheck(info, flag, es, entity, db);
      var fieldErrors := FieldErrorMap(FieldRestrictionsOf(info.fields), entity);
      r.global == es.global
      && forall k :: es.FieldGet(k) <= r.FieldGet(k)
                     && r.FieldGet(k) <= es.FieldGet(k) + (if k in fieldErrors then fieldErrors[k] else {}) + {UniqueError}
  {
    var fieldErrors := FieldErrorMap(FieldRestrictionsOf(info.fields), entity);
    var checked := FieldCheck(FieldRestrictionsOf(info.fields), es, entity);
    AddToFieldsMeaning(es, {}, UniqueError, fieldErrors);
    var groups := UniqueRestrictionsOf(info);
    var whereClause := WhereClauseOf(groups, entity, checked);
    if !IsBlank(whereClause) {
      var params := ParamsOf(groups, entity, checked);
      var hits := db.query(QueryText(info.entityName, whereClause), Bound(params));
      AddToFieldsMeaning(checked, UniqueViolationsAsWritten(entity, hits, groups, checked, flag), UniqueError, map[]);
    }
  }

  /**
   * AnnotationBasedValidator: the restrictions of one entity class, derived once
   * in the constructor, and the flag that keeps references out of unique errors.
   */
  class AnnotationBasedValidator {
    const info: ClassInfo
    const ignoreReferenceUniqueErrors: bool
    const fieldRestrictions: map<string, FieldRestriction>
    const uniqueConstraintRestrictions: seq<UniqueEntry>

    /** Scans the class's @Table unique constraints first, then each field's @NotNull and @Column. */
    constructor (info: ClassInfo, ignoreReferenceUniqueErrors: bool)
      requires TableResolvable(info)
      ensures this.info == info && this.ignoreReferenceUniqueErrors == ignoreReferenceUniqueErrors
      ensures fieldRestrictions == FieldRestrictionsOf(info.fields)
      ensures uniqueConstraintRestrictions == UniqueRestrictionsOf(info)
      ensures Configured()
    {
      var table := ProcessTableAnnotation(info);
      var restrictions, unique := ProcessFieldAnnotation(info.fields, table);
      this.info := info;
      this.fieldRestrictions := restrictions;
      this.uniqueConstraintRestrictions := unique;
      this.ignoreReferenceUniqueErrors := ignoreReferenceUniqueErrors;
    }

    /** The restrictions are the ones the annotations of info yield. */
    predicate Configured()
    {
      TableResolvable(info)
      && fieldRestrictions == FieldRestrictionsOf(info.fields) && uniqueConstraintRestrictions == UniqueRestrictionsOf(info)
    }

    /** validate: the field restrictions, then the unique constraints (which skip groups the first step flagged). */
    method Validate(entity: EntityState, previousState: Option<EntityState>, data: map<string, Value>,
                    errors: ValidationErrors, db: Db)
      modifies errors
      ensures errors.Snapshot() == UniqueCheck(info.entityName, uniqueConstraintRestrictions, ignoreReferenceUniqueErrors,
                                               FieldCheck(fieldRestrictions, old(errors.Snapshot()), entity), entity, db)
      ensures Configured() ==> errors.Snapshot() == AnnotationCheck(info, ignoreReferenceUniqueErrors, old(errors.Snapshot()), entity, db)
    {
      ValidateFieldRestrictions(entity, errors);
      ValidateUniqueConstraintRestrictions(entity, errors, db);
    }

    method ValidateFieldRestrictions(entity: EntityState, errors: ValidationErrors)
      modifies errors
      ensures errors.Snapshot() == FieldCheck(fieldRestrictions, old(errors.Snapshot()), entity)
    {
      ghost var start := errors.Snapshot();
      var todo := fieldRestrictions.Keys;
      ghost var done: map<string, set<ValidationError>> := map[];
      MergeEmpty(start);
      while todo != {}
        invariant todo <= fieldRestrictions.Keys
        invariant done.Keys <= fieldRestrictions.Keys - todo
        invariant forall g :: g in fieldRestrictions.Keys - todo ==>
                    (g in done <==> FieldErrors(fieldRestrictions[g], entity.Get(g)) != {})
        invariant forall g :: g in done ==> done[g] == FieldErrors(fieldRestrictions[g], entity.Get(g))
        invariant errors.Snapshot() == start.Merge(done)
        decreases todo
      {
        var f :| f in todo;
        var restriction := fieldRestrictions[f];
        var value := entity.Get(f);
        CheckField(f, restriction, value, errors);
        var s := FieldErrors(restriction, value);
        if s != {} {
          MergeStep(start, done, f, s);
          done := done[f := s];
        }
        todo := todo - {f};
      }
      assert done.Keys == FieldErrorMap(fieldRestrictions, entity).Keys;
      assert done == FieldErrorMap(fieldRestrictions, entity);
    }

    method ValidateUniqueConstraintRestrictions(entity: EntityState, errors: ValidationErrors, db: Db)
      modifies errors
      ensures errors.Snapshot() == UniqueCheck(info.entityName, uniqueConstraintRestrictions, ignoreReferenceUniqueErrors,
                                               old(errors.Snapshot()), entity, db)
    {
      ghost var es := errors.Snapshot();
      var parameters, whereClause := BuildWhereClause(uniqueConstraintRestrictions, entity, errors);
      if IsBlank(whereClause) {
        return;
      }
      var hits := db.query(QueryText(info.entityName, whereClause), Bound(parameters));
      AddToNoFields(es, UniqueError);
      MarkViolations(entity, hits, uniqueConstraintRestrictions, parameters, errors, es);
    }

    /** The loop over the query results; each result is compared with every group. */
    method MarkViolations(entity: EntityState, hits: seq<EntityState>, groups: seq<UniqueEntry>,
                          parameters: map<string, Value>, errors: ValidationErrors, ghost es: ErrorSet)
      requires errors.Snapshot() == es.AddToFields({}, UniqueError)
      modifies errors
      ensures errors.Snapshot() == es.AddToFields(ViolationFields(entity, hits, groups, parameters, ignoreReferenceUniqueErrors), UniqueError)
    {
      var h := 0;
      assert hits[..0] == [];
      assert ViolationFields(entity, hits[..0], groups, parameters, ignoreReferenceUniqueErrors) == {};
      while h < |hits|
        invariant 0 <= h <= |hits|
        invariant errors.Snapshot() == es.AddToFields(ViolationFields(entity, hits[..h], groups, parameters, ignoreReferenceUniqueErrors), UniqueError)
      {
        ViolationFieldsStep(entity, hits, h, groups, parameters, ignoreReferenceUniqueErrors);
        GenerateErrorsForViolatingEntity(entity, hits[h], errors, groups, parameters, es,
                                         ViolationFields(entity, hits[..h], groups, parameters, ignoreReferenceUniqueErrors));
        h := h + 1;
      }
      assert hits[..h] == hits;
    }

    /**
     * generateErrorsForViolatingEntity: unless the stored entity is the validated
     * one, every group whose members all equal their parameter values (null when
     * absent) marks its reported members.
     */
    method GenerateErrorsForViolatingEntity(entity: EntityState, hit: EntityState, errors: ValidationErrors,
                                            groups: seq<UniqueEntry>, parameters: map<string, Value>,
                                            ghost es: ErrorSet, ghost marked: set<string>)
      requires errors.Snapshot() == es.AddToFields(marked, UniqueError)
      modifies errors
      ensures errors.Snapshot() == es.AddToFields(marked + HitFields(entity, hit, groups, parameters, ignoreReferenceUniqueErrors), UniqueError)
    {
      if entity.Get("uuid") == hit.Get("uuid") {
        NoHitFieldsOnSelf(entity, hit, groups, parameters, ignoreReferenceUniqueErrors, marked);
        return;
      }
      var j := 0;
      NoHitFieldsOnSelf(entity, hit, [], parameters, ignoreReferenceUniqueErrors, marked);
      assert groups[..0] == [];
      while j < |groups|
        invariant 0 <= j <= |groups|
        invariant errors.Snapshot() == es.AddToFields(marked + HitFields(entity, hit, groups[..j], parameters, ignoreReferenceUniqueErrors), UniqueError)
      {
        MarkGroupAt(entity, hit, errors, groups, j, parameters, es, marked);
        j := j + 1;
      }
      assert groups[..j] == groups;
    }

    /** The j-th group of generateErrorsForViolatingEntity's loop. */
    method MarkGroupAt(entity: EntityState, hit: EntityState, errors: ValidationErrors, groups: seq<UniqueEntry>, j: nat,
                       parameters: map<string, Value>, ghost es: ErrorSet, ghost marked: set<string>)
      requires j < |groups| && entity.Get("uuid") != hit.Get("uuid")
      requires errors.Snapshot() == es.AddToFields(marked + HitFields(entity, hit, groups[..j], parameters, ignoreReferenceUniqueErrors), UniqueError)
      modifies errors
      ensures errors.Snapshot() == es.AddToFields(marked + HitFields(entity, hit, groups[..j + 1], parameters, ignoreReferenceUniqueErrors), UniqueError)
    {
      ghost var current := marked + HitFields(entity, hit, groups[..j], parameters, ignoreReferenceUniqueErrors);
      var members := groups[j].members;
      ghost var matched := if GroupMatches(members, parameters, hit) then Reported(members, hit, ignoreReferenceUniqueErrors) else {};
      HitFieldsStep(entity, hit, groups, j, parameters, ignoreReferenceUniqueErrors);
      assert current + matched == marked + HitFields(entity, hit, groups[..j + 1], parameters, ignoreReferenceUniqueErrors);
      MarkGroup(hit, members, errors, parameters, es, current);
    }

    /** One group against one stored entity: when all its values agree, its members (without references, if so configured) are marked. */
    method MarkGroup(hit: EntityState, members: seq<string>, errors: ValidationErrors, parameters: map<string, Value>,
                     ghost es: ErrorSet, ghost current: set<string>)
      requires errors.Snapshot() == es.AddToFields(current, UniqueError)
      modifies errors
      ensures errors.Snapshot() == es.AddToFields(current + (if GroupMatches(members, parameters, hit)
                                                           then Reported(members, hit, ignoreReferenceUniqueErrors) else {}), UniqueError)
    {
      var isValid := GroupIsValid(members, parameters, hit);
      if !isValid {
        var uniqueGroup := members;
        if ignoreReferenceUniqueErrors {
          uniqueGroup := WithoutReferences(members, hit);
        }
        AddUniqueErrors(uniqueGroup, errors, es, current);
        assert (set x | x in uniqueGroup) == Reported(members, hit, ignoreReferenceUniqueErrors);
      } else {
        assert current + {} == current;
      }
    }
  }
}
