/** What lib/validate.js promises about a single check. */
module ValidationProperties {
  import opened Js
  import opened Validation

  /** The plural flag changes only the wording of a message, never whether a
      value passes; and an array is handed to multi-validate without it. */
  lemma PluralOnlyChangesMessage(key: string, arg: Value, validator: Validator, multi: MultiValidate)
    ensures Validate(key, arg, validator, true, multi).Pass? == Validate(key, arg, validator, false, multi).Pass?
    ensures !validator.VString? && !(validator.VFunction? && validator.isClass) ==>
              Validate(key, arg, validator, true, multi) == Validate(key, arg, validator, false, multi)
  {
  }

  /** A type name other than `'*'`: the value passes exactly when the type
      test holds, and otherwise a TypeError is thrown whose message quotes the
      key and names the type, with `an` before a vowel and `a` otherwise, or
      with the plural `s`. */
  lemma TypeNameCheck(key: string, arg: Value, typeStr: string, plural: bool, multi: MultiValidate)
    requires typeStr != "*"
    ensures Validate(key, arg, VString(typeStr), plural, multi).Pass? <==> TypeNameHolds(arg, typeStr)
    ensures !TypeNameHolds(arg, typeStr) && plural ==>
              Validate(key, arg, VString(typeStr), plural, multi)
                == Fail(Error(TypeError, Quote(key) + " must be " + typeStr + "s"))
    ensures !TypeNameHolds(arg, typeStr) && !plural && StartsWithVowel(typeStr) ==>
              Validate(key, arg, VString(typeStr), plural, multi)
                == Fail(Error(TypeError, Quote(key) + " must be " + "an" + " " + typeStr))
    ensures !TypeNameHolds(arg, typeStr) && !plural && !StartsWithVowel(typeStr) ==>
              Validate(key, arg, VString(typeStr), plural, multi)
                == Fail(Error(TypeError, Quote(key) + " must be " + "a" + " " + typeStr))
  {
  }

  /** `'object'` is decided by the strict-object test alone: `typeof` and
      `instanceof` play no part. */
  lemma ObjectTypeName(key: string, arg: Value, plural: bool, multi: MultiValidate)
    ensures Validate(key, arg, VString("object"), plural, multi).Pass? <==> IsStrictObject(arg)
  {
  }

  /** A type name in the table passes instances of its constructor (wrapper
      objects such as `new String('str')`) and values whose `typeof` is the
      name. */
  lemma TableTypeName(key: string, arg: Value, typeStr: string, plural: bool, multi: MultiValidate)
    requires typeStr in {"string", "number", "array", "regexp"}
    ensures Validate(key, arg, VString(typeStr), plural, multi).Pass? <==>
              InstanceOf(arg, ClassFor(typeStr).value) || TypeOf(arg) == typeStr
  {
  }

  /** A type name outside the table maps to `NoClass`, so only `typeof` can
      pass a value. */
  lemma UnknownTypeName(key: string, arg: Value, typeStr: string, plural: bool, multi: MultiValidate)
    requires typeStr !in {"*", "object", "string", "number", "array", "regexp"}
    ensures Validate(key, arg, VString(typeStr), plural, multi).Pass? <==> TypeOf(arg) == typeStr
  {
  }

  /** A class validator passes exactly the instances of the class, and
      otherwise names the class in its TypeError. */
  lemma ClassCheck(key: string, arg: Value, id: ClassId, name: string,
                   call: Value -> TestResult, plural: bool, multi: MultiValidate)
    ensures Validate(key, arg, VFunction(id, name, true, call), plural, multi).Pass? <==> InstanceOf(arg, id)
    ensures !InstanceOf(arg, id) && plural ==>
              Validate(key, arg, VFunction(id, name, true, call), plural, multi)
                == Fail(Error(TypeError, Quote(key) + " must be instances of \"" + name + "\""))
    ensures !InstanceOf(arg, id) && !plural ==>
              Validate(key, arg, VFunction(id, name, true, call), plural, multi)
                == Fail(Error(TypeError, Quote(key) + " must be an instance of \"" + name + "\""))
  {
  }

  /** A predicate validator passes whenever the predicate returns, whatever it
      returns; what it throws is thrown again, of the same kind, with the
      quoted key and a colon before its message. */
  lemma PredicateCheck(key: string, arg: Value, id: ClassId, name: string,
                       call: Value -> TestResult, plural: bool, multi: MultiValidate)
    ensures call(arg).Returned? ==> Validate(key, arg, VFunction(id, name, false, call), plural, multi) == Pass
    ensures call(arg).Threw? ==>
              Validate(key, arg, VFunction(id, name, false, call), plural, multi)
                == Fail(Error(call(arg).thrown.kind, Quote(key) + ": " + call(arg).thrown.message))
  {
  }

  /** Every error `validate` builds itself (all but multi-validate's and the
      invalid-validator error) starts with the quoted key. */
  lemma FailureNamesKey(key: string, arg: Value, validator: Validator, plural: bool, multi: MultiValidate)
    requires validator.VString? || validator.VFunction?
    requires Validate(key, arg, validator, plural, multi).Fail?
    ensures StartsWith(Validate(key, arg, validator, plural, multi).err.message, Quote(key))
  {
    var q := Quote(key);
    assert StartsWith(q, q);
    match validator
    case VString(t) =>
      StartsWithAppend(q, " must be ", q);
      if plural {
        StartsWithAppend(q + " must be ", t, q);
        StartsWithAppend(q + " must be " + t, "s", q);
      } else {
        StartsWithAppend(q + " must be ", Article(t), q);
        StartsWithAppend(q + " must be " + Article(t), " ", q);
        StartsWithAppend(q + " must be " + Article(t) + " ", t, q);
      }
    case VFunction(_, name, isClass, call) =>
      if isClass {
        var lead := if plural then " must be instances of \"" else " must be an instance of \"";
        StartsWithAppend(q, lead, q);
        StartsWithAppend(q + lead, name, q);
        StartsWithAppend(q + lead + name, "\"", q);
      } else {
        StartsWithAppend(q, ": ", q);
        StartsWithAppend(q + ": ", call(arg).thrown.message, q);
      }
  }
}
