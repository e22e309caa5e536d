# assert-args, modelled in Dafny

`assertArgs(args, validation)` checks a function's positional arguments
against a schema and returns them by name. The schema is an object whose
keys can take four forms:

- `name`: a required argument;
- `[name]`: an optional argument;
- `...name`: a required run of arguments;
- `[...name]`: an optional run of arguments.

The value under each key is a validator:

- `'*'`: accepts anything;
- a type name such as `'string'` or `'object'`;
- a class;
- a predicate function that throws when a value is bad;
- an array of validators.

The matcher walks the keys in order and takes values off the front of a copy
of the arguments:

- A required key takes the next value, which must pass. Otherwise it throws.
- An optional key takes the next value when that value passes, or is `null`
  or `undefined`. Otherwise it stores `undefined` and leaves the value for
  the next key. The first such failure is remembered. A required scalar key
  that takes a value forgets it, and so does an optional one, or an optional
  spread that consumes at least one value. A required spread does not forget
  it. If it is still remembered after the last key, it is thrown.
- A spread key takes a window from the front. For the last key this is all
  the remaining values. Otherwise the window is `slice(0, length - keysAfter)`.
  That leaves one value for each later key when enough remain. When fewer
  remain, the negative end counts from the back, and the window holds
  `2 * length - keysAfter` values, or none. An optional spread skips `null`
  and `undefined`. A required spread throws `"...name" is required` when its
  window is empty.
- At most one spread key is allowed.

`validate(key, arg, validator, plural)` checks one value. A type-name, class
or predicate check that fails throws an error whose message starts with the
quoted key. A validator of no known shape throws `"validator" must be a
string, class or function`. An array of validators is handed to
multi-validate, whose errors are its own. A plural message ("must be
numbers") is used for spread elements.

The model has seven modules:

- `Js`: JavaScript values, as seen through `typeof`, `instanceof`, the
  strict-object test and "exists" (not `null` and not `undefined`). It also
  holds the `slice`/`shift` array helpers.
- `Validation`: `validate`, as a pure function.
- `Keys`: classifying keys and the names derived from them.
- `Matcher`: the reference definition (one `Step` per key, folded by `Run`)
  and the imperative matcher `AssertArgs`. Its loops are proved equal to the
  reference definition.
- `ValidationProperties` and `MatcherProperties`: the promised behaviour,
  proved about the reference definitions.
- `Scenarios`: rows of `test/assert-args.unit.js` and three further cases of `index.js`, each stated as a lemma about the model.

## Model

| member | source | states |
|---|---|---|
| Js.Slice | index.js:43-45 | `slice(start, end)` is a plain sub-sequence `s[a..b]` for every sign combination the matcher uses, including a negative end that counts from the back and one that passes the start. The helper `RelativeIndex` resolves each index as ECMA-262 does |
| Js.Shift | index.js:51 | after `shift`, putting the removed front element back gives the original array, which is one element longer; an empty array stays empty |
| Js.Quote | index.js:76 | a quoted name is the name between two double quotes |
| Validation.ClassFor | lib/validate.js:9-16 | the type-name table has a constructor for exactly `string`, `number`, `array` and `regexp`; every other name maps to no class |
| Validation.Validate | lib/validate.js:25-77 | `'*'` always passes; an array validator gives exactly multi-validate's outcome; a validator of no known shape throws the "must be a string, class or function" TypeError |
| ValidationProperties.PluralOnlyChangesMessage | lib/validate.js:44-46 | the plural flag never changes whether a value passes; for validators other than strings and classes it changes nothing at all |
| ValidationProperties.TypeNameCheck | lib/validate.js:39-56 | a type name other than `'*'` passes exactly the values its test accepts; otherwise the TypeError reads `"key" must be a(n) type`, with `an` before a vowel, or `"key" must be types` when plural |
| ValidationProperties.ObjectTypeName | lib/validate.js:48-49 | `'object'` is decided by the strict-object test alone |
| ValidationProperties.TableTypeName | lib/validate.js:42-54 | a table type name passes instances of its constructor (wrapper objects included) and values whose `typeof` is the name, and nothing else |
| ValidationProperties.UnknownTypeName | lib/validate.js:42-54 | a type name outside the table passes exactly the values whose `typeof` is the name |
| ValidationProperties.ClassCheck | lib/validate.js:57-64 | a class validator passes exactly its instances; otherwise the TypeError names the class, in singular or plural |
| ValidationProperties.PredicateCheck | lib/validate.js:65-73 | a predicate passes whenever it returns, whatever it returns; what it throws is thrown again with the same kind and the message `"key": <message>` |
| ValidationProperties.FailureNamesKey | lib/validate.js:29-73 | every failure of a type-name, class or predicate check has a message that starts with the quoted key |
| Keys.OptionalSpreadKeyNames | index.js:34-55 | `[...name]` is an optional spread; it is stored under `name` and reported as `...name` |
| Keys.RequiredSpreadKeyNames | index.js:61-80 | `...name` is a required spread; it is stored under `name` and reported as `...name` |
| Keys.OptionalKeyNames | index.js:86-87 | `[name]` (name not starting with `...`) is an optional scalar; it is stored and reported under `name` |
| Keys.RequiredKeyNames | index.js:114-122 | any other key is a required scalar; it is stored and reported under itself |
| Keys.KeyForms | index.js:34-87 | conversely, each classified key is its surface form wrapped around its output name |
| Keys.SpreadKeyCountAboveOne | index.js:25 | the spread-key count exceeds one exactly when two distinct positions hold spread keys |
| Keys.SpreadKeyCountPositive | index.js:25 | the spread-key count is positive exactly when some key is a spread key |
| Matcher.ConsumeOptionalSpread | index.js:47-60 | the optional-spread loop computes exactly the reference element-by-element fold `OptionalSpreadElems`, including the error it throws |
| Matcher.ConsumeRequiredSpread | index.js:79-83 | the required-spread loop computes exactly the reference fold `RequiredSpreadElems` |
| Matcher.AssertArgs | index.js:10-132 | the imperative matcher returns or throws exactly what the reference definition `AssertArgsSpec` does, for every input |
| MatcherProperties.ArgsShapeCheckedFirst | index.js:11-13 | arguments that are not an object with a `length` are refused with the `"args"` TypeError, whatever the schema |
| MatcherProperties.SchemaShapeChecked | index.js:14-16 | a schema that is not a strict object is refused with the `"validation"` TypeError |
| MatcherProperties.SingleSpreadChecked | index.js:25-27 | any two spread keys make the matcher throw the single-spread Error, whatever the arguments |
| MatcherProperties.SpreadWindowShape | index.js:43-71 | a spread window is a prefix of the remaining values; its length is all of them for the last key, `length - keysAfter` when enough remain, and otherwise what a negative `slice` end leaves (`2*length - keysAfter`, or 0) |
| MatcherProperties.OptionalSpreadPasses | index.js:47-60 | when the optional-spread loop does not throw, every existing value in the window passed the plural check |
| MatcherProperties.OptionalSpreadSucceeds | index.js:47-60 | when it does not throw, the whole window is consumed, its existing values are appended in order, and the deferred error is cleared unless the window was empty |
| MatcherProperties.OptionalSpreadFails | index.js:47-60 | when it throws, the error is the plural check's error for the first existing value that fails |
| MatcherProperties.RequiredSpreadPasses | index.js:79-83 | when the required-spread loop does not throw, every value in the window passed |
| MatcherProperties.RequiredSpreadSucceeds | index.js:79-83 | when it does not throw, the window is consumed and appended whole, and the deferred error is left as it was |
| MatcherProperties.RequiredSpreadFails | index.js:79-83 | when it throws, the error is that of the first value that fails |
| MatcherProperties.RequiredStep | index.js:114-123 | a required scalar with no value left throws `"key" is required`; a failing value throws its check's error; a passing value is consumed and stored, and the deferred error is cleared |
| MatcherProperties.OptionalStep | index.js:86-113 | an optional scalar never throws. With nothing left it stores `undefined`. A missing or passing front value is consumed and stored, and clears the deferred error. A failing value is left in place, `undefined` is stored, and the first failure is kept deferred |
| MatcherProperties.OptionalSpreadStep | index.js:35-60 | an optional spread succeeds exactly when every existing window value passes; it then stores exactly those values. Otherwise it throws the first failure |
| MatcherProperties.RequiredSpreadStep | index.js:61-84 | an empty window throws `"...name" is required`. Otherwise the step succeeds exactly when every window value passes; it then stores the whole window and keeps the deferred error. Otherwise it throws the first failure |
| MatcherProperties.StepShape | index.js:29-125 | a step that does not throw has only taken values off the front of the queue, and has added the key's output name to the result without changing any other field |
| MatcherProperties.RunShape | index.js:29-125 | across the whole pass the queue only shrinks from the front, and a pass that does not throw stores a field under every key's output name and no other |
| MatcherProperties.ResultFields | index.js:29-131 | the fields of a successful match are exactly the schema keys' output names, the keys with their syntax stripped (keys such as `foo` and `[foo]` share one field) |
| MatcherProperties.DeferredThrownAtEnd | index.js:127-131 | after the last key a deferred error, if one is still recorded, is thrown instead of the result; values left over are ignored |
| MatcherProperties.RequiredOnlyRun | index.js:114-123 | with one passing value per required key, the pass consumes exactly one value per key and stores each value under its key |
| MatcherProperties.RequiredOnlyMissingRun | index.js:115-118 | with too few values for a schema of required keys, when the values present all pass their keys' checks, the first key without a value throws `"key" is required` |
| MatcherProperties.AllRequiredNoSpread | index.js:25 | a schema of required keys has no spread key |
| MatcherProperties.RequiredOnlyRoundTrip | index.js:10-132 | round trip: for required keys, values that pass come back under their keys, and surplus values are ignored |
| MatcherProperties.RequiredOnlyMissing | index.js:10-132 | for required keys with fewer values than keys, when the values present all pass their keys' checks, the whole matcher reports the first unfilled key as required |
| Scenarios.RequiredKeyMissing | test/assert-args.unit.js:34-42 | `assertArgs([], {foo: '*'})` throws `"foo" is required` |
| Scenarios.StringTypeNamePrimitive | test/assert-args.unit.js:69-86 | `'string'` passes a primitive string and returns it under `foo` |
| Scenarios.StringTypeNameWrapper | test/assert-args.unit.js:69-86 | `'string'` passes a `String` object |
| Scenarios.StringTypeNameRefusesNumber | test/assert-args.unit.js:88-104 | `'string'` refuses `10` with `"foo" must be a string` |
| Scenarios.DeferredErrorSurfaces | test/assert-args.unit.js:190-198 | an optional key whose value fails, with no later key taking it, throws that failure at the end |
| Scenarios.LeadingOptionalPassThrough | test/assert-args.unit.js:208-216 | `['str', fn]` against `[foo]`, `[bar]`, `cb` gives `foo: 'str'`, `bar: undefined`, `cb: fn` |
| Scenarios.LeadingOptionalNull | test/assert-args.unit.js:206-214 | `[null, fn]` gives `foo: null`, `bar: undefined`, `cb: fn` |
| Scenarios.LeadingOptionalsMismatch | test/assert-args.unit.js:239-249 | `['str', {}, fn]` makes the matcher throw `"cb" must be a function` |
| Scenarios.OptionalSpreadMismatch | test/assert-args.unit.js:345-352 | `['no', fn]` against `[qux]`, `[...foo]`, `bar` makes the matcher throw `"...foo" must be numbers` |
| Scenarios.RequiredSpreadMismatch | test/assert-args.unit.js:467-474 | `['str', 10, fn]` against `[qux]`, `...foo`, `bar` makes the matcher throw `"...foo" must be numbers` |
| Scenarios.RequiredSpreadEmptyWindow | test/assert-args.unit.js:465-472 | `[{}, fn]` leaves the required spread an empty window, which throws `"...foo" is required` |
| Scenarios.RequiredSpreadBadElement | test/assert-args.unit.js:469-476 | `[{}, 10, 'no', fn]` fails inside the required spread with `"...foo" must be numbers` |
| Scenarios.TrailingOptionalSpreadBadElement | test/assert-args.unit.js:410-419 | `['yes', null, 'no']` skips the `null` in a trailing optional spread and throws `"...bar" must be numbers` |
| Scenarios.TrailingOptionalSpread | test/assert-args.unit.js:380-390 | `[fn, 10, 10]` with a trailing optional spread stores `foo: fn` and collects the rest in order |
| Scenarios.RequiredSpreadKeepsDeferredError | index.js:79-129 | a required spread's successes do not clear an earlier optional failure, so that failure is thrown at the end |
| Scenarios.OptionalSpreadClearsDeferredError | index.js:47-60 | an optional spread's successes clear an earlier optional failure |
| Scenarios.NegativeSliceWindow | index.js:69-71 | `[10, 10]` against `...foo`, `a`, `b`, `c`: the negative `slice` end hands the spread one value, `a` takes the other, and `b` is reported as required |

## Left out

- lib/multi-validate.js is not part of this model. Arrays of validators go to a `MultiValidate` function that is a parameter of every check. No property of it is assumed.
- lib/is-optional-key.js, lib/is-spread-key.js, lib/is-class.js, lib/assert-type.js and lib/starts-with-vowel.js are not part of this model:
  - The two key predicates are written as the forms the matcher slices: `[...]`, and a leading `...` outside or inside the brackets.
  - Whether a function is a class is a field of the validator.
  - `AssertType` throws a TypeError with the message when the assertion is false.
  - `StartsWithVowel` tests the first character against `aeiouAEIOU`.
- `101/exists` and `101/is-object` are modelled through the value: "exists" means not `null` and not `undefined`, and the strict-object test is a field of each defined value.
- Values are reduced to `typeof`, the constructors on their prototype chain, and the strict-object flag. Calling a predicate is a function from such a value to "returned" or "threw".
- `null` as `args` is not modelled. `typeof null` is `'object'`, so reading `null.length` throws an engine-generated TypeError whose text is not part of the library.
- Array-likes are given directly as the sequence `Array.prototype.slice` copies out of them. Sparse arrays, holes and a non-integer or huge `length` are not modelled.
- The schema is given as its keys in `Object.keys` order. JavaScript's rule that integer-like keys come first is not modelled.
- Inherited properties are not modelled:
  - type names that hit `Object.prototype` members of the lookup table (such as `'constructor'` or `'toString'`);
  - result keys such as `__proto__`.
- A predicate that throws something other than an error object is not modelled. This covers primitives, where the message rewrite has no effect, and falsy values, which `firstOptionalErr || err` would skip. Every thrown value here is an error with a kind and a message.
- Rewriting `e.message` in place keeps the error object's identity. The model builds a new error with the same kind and the new message.
- Validation.Validate: string validators are primitive strings. A `new String(...)` validator is not modelled. Such a validator is never `===` to `'*'` or `'object'`, and it is never the `typeof` of a value.

## Test rows that disagree with the code

Three rows of `test/assert-args.unit.js` expect an error the matcher does not
throw. The model follows `index.js`. The tests seem to expect an optional
key's deferred error to replace a later key's error, and the code never does
this.

| row | the test expects | the code throws | lemma |
|---|---|---|---|
| test/assert-args.unit.js:239, 249 `['str', {}, fn]` | `"bar" must be a string` | `"cb" must be a function` | Scenarios.LeadingOptionalsMismatch |
| test/assert-args.unit.js:345, 352 `['no', fn]` | `"qux" must be an object` | `"...foo" must be numbers` | Scenarios.OptionalSpreadMismatch |
| test/assert-args.unit.js:467, 474 `['str', 10, fn]` | `"qux" must be an object` | `"...foo" must be numbers` | Scenarios.RequiredSpreadMismatch |
