/** `validate` of lib/validate.js, which checks one argument: given the name of an
    argument, its value, a validator and the plural flag, it either passes or
    throws.  Its own errors name the argument, except the one for a
    validator of no known shape; an array validator's errors are whatever
    multi-validate throws. */
module Validation {
  import opened Js

  /** Outcome of a check: it returned, or it threw `err`. */
  datatype Outcome = Pass | Fail(err: Error)

  /** What calling a user predicate does: it returns (whatever value it
      returns is ignored) or it throws. */
  datatype TestResult = Returned | Threw(thrown: Error)

  /** A validator, by the shape `validate` tests for: a string (`'*'` or a
      type name), an array of validators, a function (a class when the
      `is-class` helper says so, a predicate otherwise), or anything else.
      A function carries its identity as a constructor, its `name`, and its
      behaviour when called on a value. */
  datatype Validator =
    | VString(str: string)
    | VArray(members: seq<Validator>)
    | VFunction(id: ClassId, fnName: string, isClass: bool, call: Value -> TestResult)
    | VOther

  /** lib/multi-validate.js is not part of this model: `validate` hands an
      array validator to it, so it is a parameter of every check. */
  type MultiValidate = (string, Value, seq<Validator>) -> Outcome

  /** The built-in constructors the type-name table refers to. */
  const StringClass: ClassId := 0
  const NumberClass: ClassId := 1
  const ArrayClass: ClassId := 2
  const RegExpClass: ClassId := 3

  /** The type-name table: `string`, `number`, `array` and `regexp` map to
      their constructors; every other name maps to `NoClass`, a constructor
      no value is an instance of (here: `None`). */
  function ClassFor(typeStr: string): (c: Option<ClassId>)
    ensures c.Some? <==> typeStr in {"string", "number", "array", "regexp"}
  {
    if typeStr == "string" then Some(StringClass)
    else if typeStr == "number" then Some(NumberClass)
    else if typeStr == "array" then Some(ArrayClass)
    else if typeStr == "regexp" then Some(RegExpClass)
    else None
  }

  /** `arg instanceof classes[typeStr] || NoClass`. */
  predicate InstanceOfClassFor(arg: Value, typeStr: string)
  {
    match ClassFor(typeStr)
    case Some(c) => InstanceOf(arg, c)
    case None => false
  }

  /** lib/starts-with-vowel.js is not part of this model; it is taken to test
      the first character against the five vowels in either case. */
  predicate StartsWithVowel(s: string)
  {
    |s| > 0 && s[0] in "aeiouAEIOU"
  }

  function Article(typeStr: string): string
  {
    if StartsWithVowel(typeStr) then "an" else "a"
  }

  /** The message of a failed type-name check. */
  function TypeNameMessage(keyStr: string, typeStr: string, plural: bool): string
  {
    if plural then keyStr + " must be " + typeStr + "s"
    else keyStr + " must be " + Article(typeStr) + " " + typeStr
  }

  /** The message of a failed class check. */
  function ClassMessage(keyStr: string, className: string, plural: bool): string
  {
    if plural then keyStr + " must be instances of \"" + className + "\""
    else keyStr + " must be an instance of \"" + className + "\""
  }

  /** Whether a value satisfies a type name: `'object'` asks the strict-object
      test only; any other name asks `instanceof` against the table's
      constructor or `typeof`. */
  predicate TypeNameHolds(arg: Value, typeStr: string)
  {
    if typeStr == "object" then IsStrictObject(arg)
    else InstanceOfClassFor(arg, typeStr) || TypeOf(arg) == typeStr
  }

  /** lib/assert-type.js is not part of this model; its call sites throw a
      TypeError carrying the message exactly when the assertion is false. */
  function AssertType(assertion: bool, message: string): Outcome
  {
    if assertion then Pass else Fail(Error(TypeError, message))
  }

  const InvalidValidatorMessage := "\"validator\" must be a string, class or function"

  /** `validate(key, arg, validator, plural)`. */
  function Validate(key: string, arg: Value, validator: Validator, plural: bool, multi: MultiValidate): (o: Outcome)
    ensures validator.VString? && validator.str == "*" ==> o == Pass
    ensures validator.VArray? ==> o == multi(key, arg, validator.members)
    ensures validator.VOther? ==> o == Fail(Error(TypeError, InvalidValidatorMessage))
  {
    if validator.VString? && validator.str == "*" then Pass
    else
      var keyStr := Quote(key);
      match validator
      case VArray(members) => multi(key, arg, members)
      case VString(typeStr) =>
        AssertType(TypeNameHolds(arg, typeStr), TypeNameMessage(keyStr, typeStr, plural))
      case VFunction(id, name, isClass, call) =>
        if isClass then
          AssertType(InstanceOf(arg, id), ClassMessage(keyStr, name, plural))
        else
          (match call(arg)
           case Returned => Pass
           case Threw(e) => Fail(Error(e.kind, keyStr + ": " + e.message)))
      case VOther => Fail(Error(TypeError, InvalidValidatorMessage))
  }
}
