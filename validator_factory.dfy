/**
 * AnnotationBasedValidatorFactory: a cache of annotation-based validators, one
 * per entity class and reference-error flag, filled on first request by a
 * nested computeIfAbsent. The cache is a map of maps; the pure functions below
 * describe how a request changes it.
 */
module ValidatorFactory {
  import opened Common
  import opened Persistence
  import opened AnnotationValidation

  /** The cache holds an entry for this (class, flag) pair. */
  predicate Cached<V>(m: map<ClassInfo, map<bool, V>>, t: ClassInfo, flag: bool)
  {
    t in m && flag in m[t]
  }

  /** The inner map of a class: the one stored, or a new empty one (the outer computeIfAbsent). */
  function Inner<V>(m: map<ClassInfo, map<bool, V>>, t: ClassInfo): map<bool, V>
  {
    if t in m then m[t] else map[]
  }

  /** The cache after a request for (t, flag): unchanged when the pair is cached, else with v added under it. */
  function Request<V>(m: map<ClassInfo, map<bool, V>>, t: ClassInfo, flag: bool, v: V): map<ClassInfo, map<bool, V>>
  {
    if Cached(m, t, flag) then m else m[t := Inner(m, t)[flag := v]]
  }

  /**
   * After a request the pair is cached; a cached entry is never replaced, the
   * new validator is stored only when the pair was absent, and every other pair
   * (the other flag of the same class included) is left as it was.
   */
  lemma RequestMeaning<V>(m: map<ClassInfo, map<bool, V>>, t: ClassInfo, flag: bool, v: V)
    ensures var r := Request(m, t, flag, v);
      Cached(r, t, flag)
      && (Cached(m, t, flag) ==> r[t][flag] == m[t][flag])
      && (!Cached(m, t, flag) ==> r[t][flag] == v)
      && (forall t', f' :: (t' != t || f' != flag) ==>
            (Cached(r, t', f') <==> Cached(m, t', f')) && (Cached(m, t', f') ==> r[t'][f'] == m[t'][f']))
  {
  }

  /** Asking twice for the same pair leaves the cache as the first request left it. */
  lemma RequestIdempotent<V>(m: map<ClassInfo, map<bool, V>>, t: ClassInfo, flag: bool, v: V, w: V)
    ensures Request(Request(m, t, flag, v), t, flag, w) == Request(m, t, flag, v)
  {
  }

  /** A validator was built for this class and flag, with the restrictions its annotations yield. */
  predicate Built(v: AnnotationBasedValidator, t: ClassInfo, flag: bool)
  {
    v.info == t && v.ignoreReferenceUniqueErrors == flag && v.Configured()
  }

  class AnnotationBasedValidatorFactory {
    /** The entity manager every validator it builds queries. */
    const entityManager: Db
    var validatorMap: map<ClassInfo, map<bool, AnnotationBasedValidator>>

    /** Every cached validator belongs to the pair it is cached under. */
    ghost predicate Valid()
      reads this
    {
      forall t, flag | t in validatorMap && flag in validatorMap[t] :: Built(validatorMap[t][flag], t, flag)
    }

    constructor (entityManager: Db)
      ensures this.entityManager == entityManager && validatorMap == map[] && Valid()
    {
      this.entityManager := entityManager;
      validatorMap := map[];
    }

    /**
     * create(type, flag): the cached validator of the pair, or a new one built
     * with that flag and remembered under it.
     */
    method CreateWithFlag(t: ClassInfo, flag: bool) returns (v: AnnotationBasedValidator)
      requires Valid() && TableResolvable(t)
      modifies this
      ensures Valid() && Built(v, t, flag)
      ensures validatorMap == Request(old(validatorMap), t, flag, v)
      ensures Cached(old(validatorMap), t, flag) ==> v == old(validatorMap)[t][flag]
      ensures !Cached(old(validatorMap), t, flag) ==> fresh(v)
    {
      var inner: map<bool, AnnotationBasedValidator> := if t in validatorMap then validatorMap[t] else map[];
      if flag in inner {
        v := inner[flag];
      } else {
        v := new AnnotationBasedValidator(t, flag);
        validatorMap := validatorMap[t := inner[flag := v]];
      }
    }

    /** create(type): the validator that ignores unique errors on references. */
    method Create(t: ClassInfo) returns (v: AnnotationBasedValidator)
      requires Valid() && TableResolvable(t)
      modifies this
      ensures Valid() && Built(v, t, true)
      ensures validatorMap == Request(old(validatorMap), t, true, v)
      ensures Cached(old(validatorMap), t, true) ==> v == old(validatorMap)[t][true]
      ensures !Cached(old(validatorMap), t, true) ==> fresh(v)
    {
      v := CreateWithFlag(t, true);
    }
  }
}
