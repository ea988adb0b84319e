/**
 * `ModuleSchema.Validate` and `ModuleSchema.ValidateObjectUpdate`. Both take the
 * schema by value and only read it, so both are functions here.
 *
 * The per-type check (`Type.validate`) and the per-type update check
 * (`ObjectType.ValidateObjectUpdate`) are not part of this model; they are
 * parameters. The per-type check receives the enum accumulator and gives back
 * the accumulator it leaves behind, which is how the Go code's in-place
 * updates of the shared `enumValueMap` are threaded here.
 */
module ModuleSchemas {
  import opened Wrappers
  import opened Errors
  import opened SchemaTypes

  /** The module-wide enum accumulator: enum name to the set of its values. */
  type EnumValueMap = map<string, set<string>>

  /** `Type.validate`: checks one type against the accumulator and returns the extended accumulator. */
  type TypeValidator = (ObjectType, EnumValueMap) -> Result<EnumValueMap, Error>

  /** `ObjectType.ValidateObjectUpdate`. */
  type UpdateValidator = (ObjectType, ObjectUpdate) -> Outcome<Error>

  /** The validation loop from the `i`-th type on, with accumulator `acc`; stops at the first error. */
  function ValidateFrom(types: seq<ObjectType>, i: nat, acc: EnumValueMap, validate: TypeValidator): Outcome<Error>
    requires i <= |types|
    decreases |types| - i
  {
    if i == |types| then Pass
    else match validate(types[i], acc)
      case Failure(e) => Fail(e)
      case Success(next) => ValidateFrom(types, i + 1, next, validate)
  }

  /** `ModuleSchema.Validate`: a fresh, empty accumulator is shared by all types of this one call. */
  function Validate(s: ModuleSchema, validate: TypeValidator): Outcome<Error> {
    ValidateFrom(s.objectTypes, 0, map[], validate)
  }

  /**
   * The reference definition: the accumulator the `k`-th type is checked with,
   * starting from the empty one, or None when one of the first `k` types failed.
   */
  function AccBefore(types: seq<ObjectType>, k: nat, validate: TypeValidator): Option<EnumValueMap>
    requires k <= |types|
  {
    if k == 0 then Some(map[])
    else match AccBefore(types, k - 1, validate)
      case None => None
      case Some(acc) =>
        match validate(types[k - 1], acc)
        case Success(next) => Some(next)
        case Failure(_) => None
  }

  /** The `i`-th type passes its check, given the accumulator built by the types before it. */
  predicate Accepts(types: seq<ObjectType>, i: nat, validate: TypeValidator)
    requires i < |types|
  {
    AccBefore(types, i, validate).Some? && validate(types[i], AccBefore(types, i, validate).value).Success?
  }

  /** After the first `k` types all passed, the loop continues exactly as a loop started at `k` would. */
  lemma {:induction false} ValidateFromPrefix(types: seq<ObjectType>, k: nat, validate: TypeValidator)
    requires k <= |types| && AccBefore(types, k, validate).Some?
    ensures ValidateFrom(types, 0, map[], validate) == ValidateFrom(types, k, AccBefore(types, k, validate).value, validate)
  {
    if k > 0 {
      ValidateFromPrefix(types, k - 1, validate);
    }
  }

  /** Once a type fails, no later type has an accumulator: the prefix that reaches `k` is all successes. */
  lemma {:induction false} AccBeforeClosed(types: seq<ObjectType>, j: nat, k: nat, validate: TypeValidator)
    requires j <= k <= |types| && AccBefore(types, k, validate).Some?
    ensures AccBefore(types, j, validate).Some?
    decreases k - j
  {
    if j < k {
      AccBeforeClosed(types, j, k - 1, validate);
    }
  }

  /** When no type has been reached with an accumulator, some earlier type was the first to fail. */
  lemma {:induction false} FirstFailureExists(types: seq<ObjectType>, k: nat, validate: TypeValidator)
    requires k <= |types| && AccBefore(types, k, validate).None?
    ensures exists i :: 0 <= i < k && AccBefore(types, i, validate).Some? && !Accepts(types, i, validate)
  {
    if AccBefore(types, k - 1, validate).None? {
      FirstFailureExists(types, k - 1, validate);
    } else {
      assert !Accepts(types, k - 1, validate);
    }
  }

  /** The accumulators a type sees depend only on the types before it. */
  lemma {:induction false} AccBeforeDependsOnPrefix(types: seq<ObjectType>, other: seq<ObjectType>, k: nat, validate: TypeValidator)
    requires k <= |types| && k <= |other| && types[..k] == other[..k]
    ensures AccBefore(types, k, validate) == AccBefore(other, k, validate)
  {
    if k > 0 {
      assert types[..k - 1] == types[..k][..k - 1] && other[..k - 1] == other[..k][..k - 1];
      assert types[k - 1] == types[..k][k - 1] && other[k - 1] == other[..k][k - 1];
      AccBeforeDependsOnPrefix(types, other, k - 1, validate);
    }
  }

  /** `Validate` returns the error of the first type that fails, with the accumulator of the types before it. */
  lemma ValidateReturnsFirstError(s: ModuleSchema, validate: TypeValidator, i: nat)
    requires i < |s.objectTypes| && AccBefore(s.objectTypes, i, validate).Some?
    requires validate(s.objectTypes[i], AccBefore(s.objectTypes, i, validate).value).Failure?
    ensures Validate(s, validate) == Fail(validate(s.objectTypes[i], AccBefore(s.objectTypes, i, validate).value).error)
  {
    ValidateFromPrefix(s.objectTypes, i, validate);
  }

  /** `Validate` succeeds iff every type passes its check, each given the accumulator of those before it. */
  lemma ValidatePassIffAllAccept(s: ModuleSchema, validate: TypeValidator)
    ensures Validate(s, validate) == Pass <==>
            forall i :: 0 <= i < |s.objectTypes| ==> Accepts(s.objectTypes, i, validate)
  {
    var types := s.objectTypes;
    var n := |types|;
    if AccBefore(types, n, validate).Some? {
      ValidateFromPrefix(types, n, validate);
      forall i | 0 <= i < n ensures Accepts(types, i, validate) {
        AccBeforeClosed(types, i + 1, n, validate);
      }
    } else {
      FirstFailureExists(types, n, validate);
      var i :| 0 <= i < n && AccBefore(types, i, validate).Some? && !Accepts(types, i, validate);
      ValidateReturnsFirstError(s, validate, i);
    }
  }

  /** Types after the first failing one are never consulted: replacing them changes nothing. */
  lemma ValidateIgnoresLaterTypes(s: ModuleSchema, validate: TypeValidator, i: nat, later: seq<ObjectType>)
    requires i < |s.objectTypes| && AccBefore(s.objectTypes, i, validate).Some? && !Accepts(s.objectTypes, i, validate)
    ensures Validate(ModuleSchema(s.objectTypes[..i + 1] + later), validate) == Validate(s, validate)
  {
    var other := s.objectTypes[..i + 1] + later;
    assert other[..i] == s.objectTypes[..i];
    assert other[i] == s.objectTypes[i];
    AccBeforeDependsOnPrefix(s.objectTypes, other, i, validate);
    ValidateReturnsFirstError(s, validate, i);
    ValidateReturnsFirstError(ModuleSchema(other), validate, i);
  }

  /** The index of the first object type at or after `i` whose name is `name`. */
  function FindType(types: seq<ObjectType>, name: string, i: nat): (r: Option<nat>)
    requires i <= |types|
    decreases |types| - i
    ensures r.Some? ==> i <= r.value < |types| && types[r.value].name == name
    ensures r.Some? ==> forall j :: i <= j < r.value ==> types[j].name != name
    ensures r.None? <==> forall j :: i <= j < |types| ==> types[j].name != name
  {
    if i == |types| then None
    else if types[i].name == name then Some(i)
    else FindType(types, name, i + 1)
  }

  /**
   * `ModuleSchema.ValidateObjectUpdate`: "not found" when no object type has the
   * update's type name, otherwise exactly the first such type's own verdict.
   */
  function ValidateObjectUpdate(s: ModuleSchema, update: ObjectUpdate, check: UpdateValidator): (r: Outcome<Error>)
    ensures (forall j :: 0 <= j < |s.objectTypes| ==> s.objectTypes[j].name != update.typeName) ==>
              r == Fail(ObjectTypeNotFound(update.typeName))
    ensures forall i :: 0 <= i < |s.objectTypes| && s.objectTypes[i].name == update.typeName &&
                        (forall j :: 0 <= j < i ==> s.objectTypes[j].name != update.typeName) ==>
                          r == check(s.objectTypes[i], update)
  {
    match FindType(s.objectTypes, update.typeName, 0)
    case None => Fail(ObjectTypeNotFound(update.typeName))
    case Some(i) => check(s.objectTypes[i], update)
  }
}
