/** Rows of test/assert-args.unit.js, evaluated on the model.  Three of them
    expect an error the matcher as written does not throw; for those the
    lemma states what the matcher does throw. */
module Scenarios {
  import opened Js
  import opened Validation
  import opened Keys
  import opened Matcher
  import opened MatcherProperties

  const ObjectClass: ClassId := 10
  const FunctionClass: ClassId := 11

  /** `function () {}` */
  const Fn := Defined("function", {ObjectClass, FunctionClass}, false)
  /** A string primitive such as `'str'`, `'yes'` or `'no'`. */
  const Str := Defined("string", {}, false)
  /** `new String('str')` */
  const StrObject := Defined("object", {StringClass, ObjectClass}, false)
  /** `10` */
  const Ten := Defined("number", {}, false)
  /** `{}` */
  const EmptyObject := Defined("object", {ObjectClass}, true)

  function Args(items: seq<Value>): ArgList
  {
    ArgList("object", true, items)
  }

  /** `{ '[foo]': 'string', '[bar]': 'string', 'cb': 'function' }` */
  const LeadingOptionals := Schema(true, [("[foo]", VString("string")), ("[bar]", VString("string")),
                                          ("cb", VString("function"))])

  /** `{ '[qux]': 'object', '[...foo]': 'number', 'bar': 'function' }` */
  const OptionalSpreadAfterOptional := Schema(true, [("[qux]", VString("object")), ("[...foo]", VString("number")),
                                                     ("bar", VString("function"))])

  /** `{ '[qux]': 'object', '...foo': 'number', 'bar': 'function' }` */
  const RequiredSpreadAfterOptional := Schema(true, [("[qux]", VString("object")), ("...foo", VString("number")),
                                                     ("bar", VString("function"))])

  // Classification of the literal keys the rows use.

  lemma RequiredNames(key: string)
    requires |key| > 0 && key[0] != '[' && key[0] != '.'
    ensures KindOf(key) == Required && OutName(key) == key && Label(key) == key
  {
    RequiredKeyNames(key);
  }

  lemma OptionalNames(name: string, key: string)
    requires key == "[" + name + "]" && |name| > 0 && name[0] != '.'
    ensures KindOf(key) == Optional && OutName(key) == name && Label(key) == name
  {
    OptionalKeyNames(name);
  }

  lemma OptionalSpreadNames(name: string, key: string)
    requires key == "[..." + name + "]"
    ensures KindOf(key) == SpreadOptional && OutName(key) == name && Label(key) == "..." + name
  {
    OptionalSpreadKeyNames(name);
  }

  lemma RequiredSpreadNames(name: string, key: string)
    requires key == "..." + name
    ensures KindOf(key) == SpreadRequired && OutName(key) == name && Label(key) == key
  {
    RequiredSpreadKeyNames(name);
  }

  // The failures the rows expect, each message built the way `validate`
  // builds it.

  lemma FooStringMessage()
    ensures TypeNameMessage(Quote("foo"), "string", false) == "\"foo\" must be a string"
  {
    assert Article("string") == "a";
    assert Quote("foo") == "\"foo\"";
    assert "\"foo\"" + " must be " + "a" + " " + "string" == "\"foo\" must be a string";
  }

  lemma FooNotString(arg: Value, multi: MultiValidate)
    requires arg == Ten || arg == EmptyObject
    ensures Validate("foo", arg, VString("string"), false, multi) == Fail(Error(TypeError, "\"foo\" must be a string"))
  {
    FooStringMessage();
  }

  lemma CbFunctionMessage()
    ensures TypeNameMessage(Quote("cb"), "function", false) == "\"cb\" must be a function"
  {
    assert Article("function") == "a";
    assert Quote("cb") == "\"cb\"";
    assert "\"cb\"" + " must be " + "a" + " " + "function" == "\"cb\" must be a function";
  }

  lemma CbNotFunction(multi: MultiValidate)
    ensures Validate("cb", EmptyObject, VString("function"), false, multi)
         == Fail(Error(TypeError, "\"cb\" must be a function"))
  {
    CbFunctionMessage();
  }

  lemma QuxObjectMessage()
    ensures TypeNameMessage(Quote("qux"), "object", false) == "\"qux\" must be an object"
  {
    assert Article("object") == "an";
    assert Quote("qux") == "\"qux\"";
    assert "\"qux\"" + " must be " + "an" + " " + "object" == "\"qux\" must be an object";
  }

  lemma QuxNotObject(arg: Value, multi: MultiValidate)
    requires !IsStrictObject(arg)
    ensures Validate("qux", arg, VString("object"), false, multi) == Fail(Error(TypeError, "\"qux\" must be an object"))
  {
    QuxObjectMessage();
  }

  lemma SpreadNumberMessages()
    ensures TypeNameMessage(Quote("...foo"), "number", true) == "\"...foo\" must be numbers"
    ensures TypeNameMessage(Quote("...bar"), "number", true) == "\"...bar\" must be numbers"
  {
    assert Quote("...foo") == "\"...foo\"";
    assert "\"...foo\"" + " must be " + "number" + "s" == "\"...foo\" must be numbers";
    assert Quote("...bar") == "\"...bar\"";
    assert "\"...bar\"" + " must be " + "number" + "s" == "\"...bar\" must be numbers";
  }

  lemma FooNotNumbers(multi: MultiValidate)
    ensures Validate("...foo", Str, VString("number"), true, multi) == Fail(Error(TypeError, "\"...foo\" must be numbers"))
  {
    SpreadNumberMessages();
  }

  lemma BarNotNumbers(multi: MultiValidate)
    ensures Validate("...bar", Str, VString("number"), true, multi) == Fail(Error(TypeError, "\"...bar\" must be numbers"))
  {
    SpreadNumberMessages();
  }

  lemma FooMissing()
    ensures RequiredMessage("foo") == "\"foo\" is required"
  {
    assert Quote("foo") == "\"foo\"";
  }

  lemma SpreadFooMissing()
    ensures RequiredMessage("...foo") == "\"...foo\" is required"
  {
    assert Quote("...foo") == "\"...foo\"";
  }

  lemma BMissing()
    ensures RequiredMessage("b") == "\"b\" is required"
  {
    assert Quote("b") == "\"b\"";
  }

  // Spread loops over short windows whose values all pass.

  lemma RequiredSpreadOfOne(argName: string, validator: Validator, multi: MultiValidate, outKey: string,
                            a: Value, st: Scan)
    requires Validate(argName, a, validator, true, multi).Pass?
    requires |st.left| >= 1
    ensures RequiredSpreadElems(argName, validator, multi, outKey, [a], st.(ret := st.ret[outKey := Spread([])]))
         == Ok(st.(left := st.left[1..], ret := st.ret[outKey := Spread([a])]))
  {
    var start := st.(ret := st.ret[outKey := Spread([])]);
    assert [a][1..] == [];
    assert SpreadAt(start.ret, outKey) + [a] == [a];
    assert Push(start.ret, outKey, a) == st.ret[outKey := Spread([a])];
  }

  lemma RequiredSpreadOfTwo(argName: string, validator: Validator, multi: MultiValidate, outKey: string,
                            a: Value, b: Value, st: Scan)
    requires Validate(argName, a, validator, true, multi).Pass?
    requires Validate(argName, b, validator, true, multi).Pass?
    requires |st.left| >= 2
    ensures RequiredSpreadElems(argName, validator, multi, outKey, [a, b], st.(ret := st.ret[outKey := Spread([])]))
         == Ok(st.(left := st.left[2..], ret := st.ret[outKey := Spread([a, b])]))
  {
    var start := st.(ret := st.ret[outKey := Spread([])]);
    var mid := st.(left := st.left[1..], ret := st.ret[outKey := Spread([a])]);
    assert SpreadAt(start.ret, outKey) + [a] == [a];
    assert Push(start.ret, outKey, a) == mid.ret;
    assert [a, b][1..] == [b];
    assert SpreadAt(mid.ret, outKey) + [b] == [a, b];
    assert Push(mid.ret, outKey, b) == st.ret[outKey := Spread([a, b])];
    assert mid.left[1..] == st.left[2..];
    assert RequiredSpreadElems(argName, validator, multi, outKey, [b], mid)
        == Ok(st.(left := st.left[2..], ret := st.ret[outKey := Spread([a, b])]));
  }

  lemma OptionalSpreadOfTwo(argName: string, validator: Validator, multi: MultiValidate, outKey: string,
                            a: Value, b: Value, st: Scan)
    requires Exists(a) && Validate(argName, a, validator, true, multi).Pass?
    requires Exists(b) && Validate(argName, b, validator, true, multi).Pass?
    requires |st.left| >= 2
    ensures OptionalSpreadElems(argName, validator, multi, outKey, [a, b], st.(ret := st.ret[outKey := Spread([])]))
         == Ok(Scan(st.left[2..], None, st.ret[outKey := Spread([a, b])]))
  {
    var start := st.(ret := st.ret[outKey := Spread([])]);
    var mid := Scan(st.left[1..], None, st.ret[outKey := Spread([a])]);
    assert SpreadAt(start.ret, outKey) + [a] == [a];
    assert Push(start.ret, outKey, a) == mid.ret;
    assert [a, b][1..] == [b];
    assert SpreadAt(mid.ret, outKey) + [b] == [a, b];
    assert Push(mid.ret, outKey, b) == st.ret[outKey := Spread([a, b])];
    assert mid.left[1..] == st.left[2..];
    assert OptionalSpreadElems(argName, validator, multi, outKey, [b], mid)
        == Ok(Scan(st.left[2..], None, st.ret[outKey := Spread([a, b])]));
  }

  /** test/assert-args.unit.js:34-42: a required key without a value. */
  lemma RequiredKeyMissing(multi: MultiValidate)
    ensures AssertArgsSpec(Args([]), Schema(true, [("foo", VString("*"))]), multi)
              == Err(Error(TypeError, "\"foo\" is required"))
  {
    var entries := [("foo", VString("*"))];
    RequiredNames("foo");
    FooMissing();
    assert SpreadKeyCount(entries) == 0;
    assert Step("foo", VString("*"), 0, multi, Scan([], None, map[])) == Err(Error(TypeError, "\"foo\" is required"));
  }

  /** test/assert-args.unit.js:69-104: `'string'` passes a primitive string. */
  lemma StringTypeNamePrimitive(multi: MultiValidate)
    ensures AssertArgsSpec(Args([Str]), Schema(true, [("foo", VString("string"))]), multi)
              == Ok(map["foo" := Scalar(Str)])
  {
    var entries := [("foo", VString("string"))];
    RequiredNames("foo");
    assert SpreadKeyCount(entries) == 0;
    assert Validate("foo", Str, VString("string"), false, multi) == Pass;
    RequiredStep("foo", VString("string"), 0, multi, Scan([Str], None, map[]));
    assert [Str][1..] == [];
    assert Step("foo", VString("string"), 0, multi, Scan([Str], None, map[]))
        == Ok(Scan([], None, map["foo" := Scalar(Str)]));
  }

  /** test/assert-args.unit.js:69-104: `'string'` passes a String object. */
  lemma StringTypeNameWrapper(multi: MultiValidate)
    ensures AssertArgsSpec(Args([StrObject]), Schema(true, [("foo", VString("string"))]), multi)
              == Ok(map["foo" := Scalar(StrObject)])
  {
    var entries := [("foo", VString("string"))];
    RequiredNames("foo");
    assert SpreadKeyCount(entries) == 0;
    assert Validate("foo", StrObject, VString("string"), false, multi) == Pass;
    RequiredStep("foo", VString("string"), 0, multi, Scan([StrObject], None, map[]));
    assert [StrObject][1..] == [];
    assert Step("foo", VString("string"), 0, multi, Scan([StrObject], None, map[]))
        == Ok(Scan([], None, map["foo" := Scalar(StrObject)]));
  }

  /** test/assert-args.unit.js:69-104: `'string'` refuses a number. */
  lemma StringTypeNameRefusesNumber(multi: MultiValidate)
    ensures AssertArgsSpec(Args([Ten]), Schema(true, [("foo", VString("string"))]), multi)
              == Err(Error(TypeError, "\"foo\" must be a string"))
  {
    var entries := [("foo", VString("string"))];
    var e := Error(TypeError, "\"foo\" must be a string");
    RequiredNames("foo");
    assert SpreadKeyCount(entries) == 0;
    FooNotString(Ten, multi);
    RequiredStep("foo", VString("string"), 0, multi, Scan([Ten], None, map[]));
    assert Step("foo", VString("string"), 0, multi, Scan([Ten], None, map[])) == Err(e);
  }

  /** test/assert-args.unit.js:190-198: an optional key whose value fails, with no later key,
      throws its deferred error at the end. */
  lemma DeferredErrorSurfaces(multi: MultiValidate)
    ensures AssertArgsSpec(Args([EmptyObject]), Schema(true, [("[foo]", VString("string"))]), multi)
              == Err(Error(TypeError, "\"foo\" must be a string"))
  {
    var entries := [("[foo]", VString("string"))];
    var e := Error(TypeError, "\"foo\" must be a string");
    OptionalNames("foo", "[foo]");
    assert SpreadKeyCount(entries) == 0;
    FooNotString(EmptyObject, multi);
    OptionalStep("[foo]", VString("string"), 0, multi, Scan([EmptyObject], None, map[]));
    assert Step("[foo]", VString("string"), 0, multi, Scan([EmptyObject], None, map[]))
        == Ok(Scan([EmptyObject], Some(e), map["foo" := Scalar(Undefined)]));
  }

  /** The schema of the leading-optionals rows has no spread key. */
  lemma LeadingOptionalsKeys()
    ensures KindOf("[foo]") == Optional && OutName("[foo]") == "foo" && Label("[foo]") == "foo"
    ensures KindOf("[bar]") == Optional && OutName("[bar]") == "bar" && Label("[bar]") == "bar"
    ensures KindOf("cb") == Required
    ensures SpreadKeyCount(LeadingOptionals.entries) == 0
  {
    OptionalNames("foo", "[foo]");
    OptionalNames("bar", "[bar]");
    RequiredNames("cb");
  }

  /** The last two keys of the leading-optionals schema after `[foo]` took
      the first value: `[bar]` refuses the function, which `cb` then takes. */
  lemma LeadingOptionalsTail(foo: Value, multi: MultiValidate)
    ensures var s1 := Scan([Fn], None, map["foo" := Scalar(foo)]);
            Run(LeadingOptionals.entries[1..], multi, s1)
              == Ok(Scan([], None, map["foo" := Scalar(foo), "bar" := Scalar(Undefined), "cb" := Scalar(Fn)]))
  {
    var entries := LeadingOptionals.entries;
    LeadingOptionalsKeys();
    var s1 := Scan([Fn], None, map["foo" := Scalar(foo)]);
    var barOutcome := Validate("bar", Fn, VString("string"), false, multi);
    assert barOutcome.Fail?;
    OptionalStep("[bar]", VString("string"), 1, multi, s1);
    var s2 := Scan([Fn], Some(barOutcome.err), map["foo" := Scalar(foo), "bar" := Scalar(Undefined)]);
    assert Step("[bar]", VString("string"), 1, multi, s1) == Ok(s2);
    assert Validate("cb", Fn, VString("function"), false, multi) == Pass;
    RequiredStep("cb", VString("function"), 0, multi, s2);
    assert [Fn][1..] == [];
    var s3 := Scan([], None, map["foo" := Scalar(foo), "bar" := Scalar(Undefined), "cb" := Scalar(Fn)]);
    assert Step("cb", VString("function"), 0, multi, s2) == Ok(s3);
    assert entries[1..][1..] == [("cb", VString("function"))];
    assert Run(entries[1..][1..], multi, s2) == Ok(s3);
  }

  /** test/assert-args.unit.js:208, 216: a failing leading optional value passes through to the
      later keys. */
  lemma LeadingOptionalPassThrough(multi: MultiValidate)
    ensures AssertArgsSpec(Args([Str, Fn]), LeadingOptionals, multi)
              == Ok(map["foo" := Scalar(Str), "bar" := Scalar(Undefined), "cb" := Scalar(Fn)])
  {
    LeadingOptionalsKeys();
    var s1 := Scan([Fn], None, map["foo" := Scalar(Str)]);
    assert Validate("foo", Str, VString("string"), false, multi) == Pass;
    OptionalStep("[foo]", VString("string"), 2, multi, Scan([Str, Fn], None, map[]));
    assert [Str, Fn][1..] == [Fn];
    assert Step("[foo]", VString("string"), 2, multi, Scan([Str, Fn], None, map[])) == Ok(s1);
    LeadingOptionalsTail(Str, multi);
  }

  /** test/assert-args.unit.js:206, 214: a null in an optional position is taken as it is. */
  lemma LeadingOptionalNull(multi: MultiValidate)
    ensures AssertArgsSpec(Args([Null, Fn]), LeadingOptionals, multi)
              == Ok(map["foo" := Scalar(Null), "bar" := Scalar(Undefined), "cb" := Scalar(Fn)])
  {
    LeadingOptionalsKeys();
    var s1 := Scan([Fn], None, map["foo" := Scalar(Null)]);
    OptionalStep("[foo]", VString("string"), 2, multi, Scan([Null, Fn], None, map[]));
    assert [Null, Fn][1..] == [Fn];
    assert Step("[foo]", VString("string"), 2, multi, Scan([Null, Fn], None, map[])) == Ok(s1);
    LeadingOptionalsTail(Null, multi);
  }

  /** test/assert-args.unit.js:239 expects `"bar" must be a string`; the matcher throws the
      required key's own error. */
  lemma LeadingOptionalsMismatch(multi: MultiValidate)
    ensures AssertArgsSpec(Args([Str, EmptyObject, Fn]), LeadingOptionals, multi)
              == Err(Error(TypeError, "\"cb\" must be a function"))
  {
    var entries := LeadingOptionals.entries;
    var e := Error(TypeError, "\"cb\" must be a function");
    LeadingOptionalsKeys();
    var s0 := Scan([Str, EmptyObject, Fn], None, map[]);
    var s1 := Scan([EmptyObject, Fn], None, map["foo" := Scalar(Str)]);
    assert Validate("foo", Str, VString("string"), false, multi) == Pass;
    OptionalStep("[foo]", VString("string"), 2, multi, s0);
    assert s0.left[1..] == [EmptyObject, Fn];
    assert Step("[foo]", VString("string"), 2, multi, s0) == Ok(s1);
    var barOutcome := Validate("bar", EmptyObject, VString("string"), false, multi);
    assert barOutcome.Fail?;
    OptionalStep("[bar]", VString("string"), 1, multi, s1);
    var s2 := Scan([EmptyObject, Fn], Some(barOutcome.err), map["foo" := Scalar(Str), "bar" := Scalar(Undefined)]);
    assert Step("[bar]", VString("string"), 1, multi, s1) == Ok(s2);
    CbNotFunction(multi);
    RequiredStep("cb", VString("function"), 0, multi, s2);
    assert Step("cb", VString("function"), 0, multi, s2) == Err(e);
    assert entries[1..][1..] == [("cb", VString("function"))];
    assert Run(entries[1..][1..], multi, s2) == Err(e);
    assert Run(entries[1..], multi, s1) == Err(e);
  }

  /** The keys of the two schemas with a spread between `[qux]` and `bar`. */
  lemma SpreadAfterOptionalKeys()
    ensures KindOf("[qux]") == Optional && OutName("[qux]") == "qux" && Label("[qux]") == "qux"
    ensures KindOf("[...foo]") == SpreadOptional && OutName("[...foo]") == "foo" && Label("[...foo]") == "...foo"
    ensures KindOf("...foo") == SpreadRequired && OutName("...foo") == "foo" && Label("...foo") == "...foo"
    ensures SpreadKeyCount(OptionalSpreadAfterOptional.entries) == 1
    ensures SpreadKeyCount(RequiredSpreadAfterOptional.entries) == 1
  {
    OptionalNames("qux", "[qux]");
    OptionalSpreadNames("foo", "[...foo]");
    RequiredSpreadNames("foo", "...foo");
    RequiredNames("bar");
  }

  /** An optional `[qux]: 'object'` refusing a non-object. */
  lemma QuxRefuses(arg: Value, left: seq<Value>, keysAfter: nat, multi: MultiValidate)
    requires |left| > 0 && left[0] == arg && Exists(arg) && !IsStrictObject(arg)
    ensures Step("[qux]", VString("object"), keysAfter, multi, Scan(left, None, map[]))
         == Ok(Scan(left, Some(Error(TypeError, "\"qux\" must be an object")), map["qux" := Scalar(Undefined)]))
  {
    SpreadAfterOptionalKeys();
    QuxNotObject(arg, multi);
    OptionalStep("[qux]", VString("object"), keysAfter, multi, Scan(left, None, map[]));
  }

  /** An optional `[qux]: 'object'` taking a strict object. */
  lemma QuxTakes(left: seq<Value>, keysAfter: nat, multi: MultiValidate)
    requires |left| > 0 && left[0] == EmptyObject
    ensures Step("[qux]", VString("object"), keysAfter, multi, Scan(left, None, map[]))
         == Ok(Scan(left[1..], None, map["qux" := Scalar(EmptyObject)]))
  {
    SpreadAfterOptionalKeys();
    assert Validate("qux", EmptyObject, VString("object"), false, multi) == Pass;
    OptionalStep("[qux]", VString("object"), keysAfter, multi, Scan(left, None, map[]));
  }

  /** test/assert-args.unit.js:345 expects `"qux" must be an object`; the matcher throws the
      optional spread's own error. */
  lemma OptionalSpreadMismatch(multi: MultiValidate)
    ensures AssertArgsSpec(Args([Str, Fn]), OptionalSpreadAfterOptional, multi)
              == Err(Error(TypeError, "\"...foo\" must be numbers"))
  {
    var entries := OptionalSpreadAfterOptional.entries;
    var e := Error(TypeError, "\"...foo\" must be numbers");
    SpreadAfterOptionalKeys();
    QuxRefuses(Str, [Str, Fn], 2, multi);
    var s1 := Scan([Str, Fn], Some(Error(TypeError, "\"qux\" must be an object")), map["qux" := Scalar(Undefined)]);
    var w := SpreadWindow(s1.left, 1);
    assert w == [Str];
    FooNotNumbers(multi);
    var start := s1.(ret := s1.ret["foo" := Spread([])]);
    assert Step("[...foo]", VString("number"), 1, multi, s1)
        == OptionalSpreadElems("...foo", VString("number"), multi, "foo", [Str], start);
    assert OptionalSpreadElems("...foo", VString("number"), multi, "foo", [Str], start) == Err(e);
    assert Run(entries[1..], multi, s1) == Err(e);
  }

  /** test/assert-args.unit.js:467 expects `"qux" must be an object`; the matcher throws the
      required spread's own error. */
  lemma RequiredSpreadMismatch(multi: MultiValidate)
    ensures AssertArgsSpec(Args([Str, Ten, Fn]), RequiredSpreadAfterOptional, multi)
              == Err(Error(TypeError, "\"...foo\" must be numbers"))
  {
    var entries := RequiredSpreadAfterOptional.entries;
    var e := Error(TypeError, "\"...foo\" must be numbers");
    SpreadAfterOptionalKeys();
    QuxRefuses(Str, [Str, Ten, Fn], 2, multi);
    var s1 := Scan([Str, Ten, Fn], Some(Error(TypeError, "\"qux\" must be an object")), map["qux" := Scalar(Undefined)]);
    var w := SpreadWindow(s1.left, 1);
    assert w == [Str, Ten];
    FooNotNumbers(multi);
    var start := s1.(ret := s1.ret["foo" := Spread([])]);
    assert Step("...foo", VString("number"), 1, multi, s1)
        == RequiredSpreadElems("...foo", VString("number"), multi, "foo", [Str, Ten], start);
    assert RequiredSpreadElems("...foo", VString("number"), multi, "foo", [Str, Ten], start) == Err(e);
    assert Run(entries[1..], multi, s1) == Err(e);
  }

  /** test/assert-args.unit.js:465, 472: the required spread's window is empty. */
  lemma RequiredSpreadEmptyWindow(multi: MultiValidate)
    ensures AssertArgsSpec(Args([EmptyObject, Fn]), RequiredSpreadAfterOptional, multi)
              == Err(Error(TypeError, "\"...foo\" is required"))
  {
    var entries := RequiredSpreadAfterOptional.entries;
    var e := Error(TypeError, "\"...foo\" is required");
    SpreadAfterOptionalKeys();
    QuxTakes([EmptyObject, Fn], 2, multi);
    assert [EmptyObject, Fn][1..] == [Fn];
    var s1 := Scan([Fn], None, map["qux" := Scalar(EmptyObject)]);
    assert SpreadWindow(s1.left, 1) == [];
    SpreadFooMissing();
    assert Step("...foo", VString("number"), 1, multi, s1) == Err(e);
    assert Run(entries[1..], multi, s1) == Err(e);
  }

  /** test/assert-args.unit.js:469, 476: a failure inside a required spread's window. */
  lemma RequiredSpreadBadElement(multi: MultiValidate)
    ensures AssertArgsSpec(Args([EmptyObject, Ten, Str, Fn]), RequiredSpreadAfterOptional, multi)
              == Err(Error(TypeError, "\"...foo\" must be numbers"))
  {
    var entries := RequiredSpreadAfterOptional.entries;
    var e := Error(TypeError, "\"...foo\" must be numbers");
    SpreadAfterOptionalKeys();
    QuxTakes([EmptyObject, Ten, Str, Fn], 2, multi);
    assert [EmptyObject, Ten, Str, Fn][1..] == [Ten, Str, Fn];
    var s1 := Scan([Ten, Str, Fn], None, map["qux" := Scalar(EmptyObject)]);
    var w := SpreadWindow(s1.left, 1);
    assert w == [Ten, Str];
    assert Validate("...foo", Ten, VString("number"), true, multi) == Pass;
    FooNotNumbers(multi);
    var start := s1.(ret := s1.ret["foo" := Spread([])]);
    var next := start.(left := Shift(start.left), ret := Push(start.ret, "foo", Ten));
    assert RequiredSpreadElems("...foo", VString("number"), multi, "foo", [Str], next) == Err(e);
    assert w[1..] == [Str];
    assert Step("...foo", VString("number"), 1, multi, s1)
        == RequiredSpreadElems("...foo", VString("number"), multi, "foo", w, start);
    assert RequiredSpreadElems("...foo", VString("number"), multi, "foo", w, start) == Err(e);
    assert Run(entries[1..], multi, s1) == Err(e);
  }

  /** test/assert-args.unit.js:410, 419: missing values inside a trailing optional spread are
      skipped, a present bad one throws. */
  lemma TrailingOptionalSpreadBadElement(multi: MultiValidate)
    ensures AssertArgsSpec(Args([Str, Null, Str]),
                           Schema(true, [("foo", VString("string")), ("[...bar]", VString("number"))]), multi)
              == Err(Error(TypeError, "\"...bar\" must be numbers"))
  {
    var entries := [("foo", VString("string")), ("[...bar]", VString("number"))];
    var e := Error(TypeError, "\"...bar\" must be numbers");
    RequiredNames("foo");
    OptionalSpreadNames("bar", "[...bar]");
    assert "..." + "bar" == "...bar";
    assert SpreadKeyCount(entries) == 1;
    var s0 := Scan([Str, Null, Str], None, map[]);
    var s1 := Scan([Null, Str], None, map["foo" := Scalar(Str)]);
    assert Validate("foo", Str, VString("string"), false, multi) == Pass;
    RequiredStep("foo", VString("string"), 1, multi, s0);
    assert s0.left[1..] == [Null, Str];
    assert Step("foo", VString("string"), 1, multi, s0) == Ok(s1);
    var w := SpreadWindow(s1.left, 0);
    assert w == [Null, Str];
    BarNotNumbers(multi);
    var start := s1.(ret := s1.ret["bar" := Spread([])]);
    var next := start.(left := Shift(start.left), deferred := None);
    assert OptionalSpreadElems("...bar", VString("number"), multi, "bar", [Str], next) == Err(e);
    assert w[1..] == [Str];
    assert Step("[...bar]", VString("number"), 0, multi, s1)
        == OptionalSpreadElems("...bar", VString("number"), multi, "bar", w, start);
    assert OptionalSpreadElems("...bar", VString("number"), multi, "bar", w, start) == Err(e);
    assert Run(entries[1..], multi, s1) == Err(e);
  }

  /** test/assert-args.unit.js:380, 390: a trailing optional spread collects every remaining
      value. */
  lemma TrailingOptionalSpread(multi: MultiValidate)
    ensures AssertArgsSpec(Args([Fn, Ten, Ten]),
                           Schema(true, [("foo", VString("function")), ("[...bar]", VString("number"))]), multi)
              == Ok(map["foo" := Scalar(Fn), "bar" := Spread([Ten, Ten])])
  {
    var entries := [("foo", VString("function")), ("[...bar]", VString("number"))];
    RequiredNames("foo");
    OptionalSpreadNames("bar", "[...bar]");
    assert "..." + "bar" == "...bar";
    assert SpreadKeyCount(entries) == 1;
    var s0 := Scan([Fn, Ten, Ten], None, map[]);
    var s1 := Scan([Ten, Ten], None, map["foo" := Scalar(Fn)]);
    assert Validate("foo", Fn, VString("function"), false, multi) == Pass;
    RequiredStep("foo", VString("function"), 1, multi, s0);
    assert s0.left[1..] == [Ten, Ten];
    assert Step("foo", VString("function"), 1, multi, s0) == Ok(s1);
    var w := SpreadWindow(s1.left, 0);
    assert w == [Ten, Ten];
    assert Validate("...bar", Ten, VString("number"), true, multi) == Pass;
    OptionalSpreadOfTwo("...bar", VString("number"), multi, "bar", Ten, Ten, s1);
    var s2 := Scan([], None, map["foo" := Scalar(Fn), "bar" := Spread([Ten, Ten])]);
    assert Step("[...bar]", VString("number"), 0, multi, s1)
        == OptionalSpreadElems("...bar", VString("number"), multi, "bar", w, s1.(ret := s1.ret["bar" := Spread([])]));
    assert Step("[...bar]", VString("number"), 0, multi, s1) == Ok(s2);
    assert Run(entries[1..], multi, s1) == Ok(s2);
  }

  /** The two-key schemas `{ '[qux]': 'object', <spread>: 'number' }` on
      `[10, 10]`: the optional key fails and defers its error, and the spread
      then has both values. */
  lemma QuxThenSpreadStart(multi: MultiValidate)
    ensures Step("[qux]", VString("object"), 1, multi, Scan([Ten, Ten], None, map[]))
         == Ok(Scan([Ten, Ten], Some(Error(TypeError, "\"qux\" must be an object")), map["qux" := Scalar(Undefined)]))
    ensures SpreadWindow([Ten, Ten], 0) == [Ten, Ten]
    ensures Validate("...foo", Ten, VString("number"), true, multi) == Pass
  {
    QuxRefuses(Ten, [Ten, Ten], 1, multi);
  }

  /** A required spread's successes do not clear an earlier optional error,
      which is thrown at the end. */
  lemma RequiredSpreadKeepsDeferredError(multi: MultiValidate)
    ensures AssertArgsSpec(Args([Ten, Ten]),
                           Schema(true, [("[qux]", VString("object")), ("...foo", VString("number"))]), multi)
              == Err(Error(TypeError, "\"qux\" must be an object"))
  {
    var entries := [("[qux]", VString("object")), ("...foo", VString("number"))];
    var q := Some(Error(TypeError, "\"qux\" must be an object"));
    SpreadAfterOptionalKeys();
    assert SpreadKeyCount(entries) == 1;
    QuxThenSpreadStart(multi);
    var s1 := Scan([Ten, Ten], q, map["qux" := Scalar(Undefined)]);
    RequiredSpreadOfTwo("...foo", VString("number"), multi, "foo", Ten, Ten, s1);
    var s2 := Scan([], q, map["qux" := Scalar(Undefined), "foo" := Spread([Ten, Ten])]);
    assert Step("...foo", VString("number"), 0, multi, s1)
        == RequiredSpreadElems("...foo", VString("number"), multi, "foo", [Ten, Ten], s1.(ret := s1.ret["foo" := Spread([])]));
    assert Step("...foo", VString("number"), 0, multi, s1) == Ok(s2);
    assert Run(entries[1..], multi, s1) == Ok(s2);
  }

  /** An optional spread's successes clear an earlier optional error. */
  lemma OptionalSpreadClearsDeferredError(multi: MultiValidate)
    ensures AssertArgsSpec(Args([Ten, Ten]),
                           Schema(true, [("[qux]", VString("object")), ("[...foo]", VString("number"))]), multi)
              == Ok(map["qux" := Scalar(Undefined), "foo" := Spread([Ten, Ten])])
  {
    var entries := [("[qux]", VString("object")), ("[...foo]", VString("number"))];
    var q := Some(Error(TypeError, "\"qux\" must be an object"));
    SpreadAfterOptionalKeys();
    assert SpreadKeyCount(entries) == 1;
    QuxThenSpreadStart(multi);
    var s1 := Scan([Ten, Ten], q, map["qux" := Scalar(Undefined)]);
    OptionalSpreadOfTwo("...foo", VString("number"), multi, "foo", Ten, Ten, s1);
    var s2 := Scan([], None, map["qux" := Scalar(Undefined), "foo" := Spread([Ten, Ten])]);
    assert Step("[...foo]", VString("number"), 0, multi, s1)
        == OptionalSpreadElems("...foo", VString("number"), multi, "foo", [Ten, Ten], s1.(ret := s1.ret["foo" := Spread([])]));
    assert Step("[...foo]", VString("number"), 0, multi, s1) == Ok(s2);
    assert Run(entries[1..], multi, s1) == Ok(s2);
  }

  /** `[10, 10].slice(0, -1)`: with three keys after it, the required
      spread takes one ten. */
  lemma NegativeSliceSpread(multi: MultiValidate)
    ensures KindOf("...foo") == SpreadRequired && OutName("...foo") == "foo"
    ensures Step("...foo", VString("number"), 3, multi, Scan([Ten, Ten], None, map[]))
         == Ok(Scan([Ten], None, map["foo" := Spread([Ten])]))
  {
    var s0 := Scan([Ten, Ten], None, map[]);
    RequiredSpreadNames("foo", "...foo");
    assert SpreadWindow(s0.left, 3) == [Ten];
    assert Validate("...foo", Ten, VString("number"), true, multi) == Pass;
    RequiredSpreadOfOne("...foo", VString("number"), multi, "foo", Ten, s0);
    assert s0.left[1..] == [Ten];
    assert Step("...foo", VString("number"), 3, multi, s0)
        == RequiredSpreadElems("...foo", VString("number"), multi, "foo", [Ten], s0.(ret := map["foo" := Spread([])]));
  }

  /** With two values and three keys after a required spread, the negative
      end of `slice` gives the spread one value, so the error is about a
      later key rather than the spread. */
  lemma NegativeSliceWindow(multi: MultiValidate)
    ensures AssertArgsSpec(Args([Ten, Ten]),
                           Schema(true, [("...foo", VString("number")), ("a", VString("*")),
                                         ("b", VString("*")), ("c", VString("*"))]), multi)
              == Err(Error(TypeError, "\"b\" is required"))
  {
    var entries := [("...foo", VString("number")), ("a", VString("*")), ("b", VString("*")), ("c", VString("*"))];
    var e := Error(TypeError, "\"b\" is required");
    NegativeSliceSpread(multi);
    RequiredNames("a");
    RequiredNames("b");
    RequiredNames("c");
    assert SpreadKeyCount(entries) == 1;
    var s1 := Scan([Ten], None, map["foo" := Spread([Ten])]);
    RequiredStep("a", VString("*"), 2, multi, s1);
    assert [Ten][1..] == [];
    var s2 := Scan([], None, map["foo" := Spread([Ten]), "a" := Scalar(Ten)]);
    assert Step("a", VString("*"), 2, multi, s1) == Ok(s2);
    BMissing();
    RequiredStep("b", VString("*"), 1, multi, s2);
    assert Step("b", VString("*"), 1, multi, s2) == Err(e);
    assert entries[1..][1..] == [("b", VString("*")), ("c", VString("*"))];
    assert Run(entries[1..][1..], multi, s2) == Err(e);
    assert Run(entries[1..], multi, s1) == Err(e);
  }
}
