/** The positional matcher `assertArgs(args, validation)` of index.js: it
    walks the schema keys in order, takes zero, one or a run of values from
    the front of a working copy of the arguments for each, and returns the
    named values or throws.  The functions below are the reference definition
    (one step per key, folded over the schema); the method `AssertArgs` is
    the matcher itself, with its queue, deferred error and result changed in
    place, proved to compute the same thing. */
module Matcher {
  import opened Js
  import opened Validation
  import opened Keys

  /** The `args` argument: its `typeof`, whether its `length` exists, and the
      elements `Array.prototype.slice` copies out of it. */
  datatype ArgList = ArgList(typeOf: string, hasLength: bool, items: seq<Value>)

  /** The `validation` argument: whether it passes the strict-object test,
      and its keys with their validators in `Object.keys` order. */
  datatype Schema = Schema(isObject: bool, entries: seq<(string, Validator)>)

  /** A field of the result: one value, or the array a spread key collects. */
  datatype Out = Scalar(value: Value) | Spread(values: seq<Value>)

  /** The matcher's carried state between keys: the values not yet consumed
      (`argsLeft`), the deferred optional error (`firstOptionalErr`) and the
      result built so far (`ret`). */
  datatype Scan = Scan(left: seq<Value>, deferred: Option<Error>, ret: map<string, Out>)

  const ArgsMessage := "\"args\" must be an array or array-like object (arguments)"
  const ValidationMessage := "\"validation\" must be an object"
  const SingleSpreadMessage := "assert-args only supports a single spread argument"

  function RequiredMessage(key: string): string
  {
    Quote(key) + " is required"
  }

  /** The values a spread key may take when `keysAfter` keys follow it: all
      of them when it is the last key, else
      `argsLeft.slice(0, argsLeft.length - keysAfter)`. */
  function SpreadWindow(left: seq<Value>, keysAfter: nat): seq<Value>
  {
    if keysAfter == 0 then Slice(left, 0, |left|)
    else Slice(left, 0, |left| - keysAfter)
  }

  /** The array stored under `outKey`, or none yet. */
  function SpreadAt(ret: map<string, Out>, outKey: string): seq<Value>
  {
    if outKey in ret && ret[outKey].Spread? then ret[outKey].values else []
  }

  /** `ret[outKey].push(v)`. */
  function Push(ret: map<string, Out>, outKey: string, v: Value): map<string, Out>
  {
    ret[outKey := Spread(SpreadAt(ret, outKey) + [v])]
  }

  /** The loop over an optional spread's window: a missing value is consumed
      and skipped, any other is validated (plural) and, when it passes,
      appended and consumed; either clears the deferred error.  A failure
      throws at once. */
  function OptionalSpreadElems(argName: string, validator: Validator, multi: MultiValidate,
                               outKey: string, window: seq<Value>, st: Scan): Result<Scan>
    decreases |window|
  {
    if window == [] then Ok(st)
    else
      var arg := window[0];
      if !Exists(arg) then
        OptionalSpreadElems(argName, validator, multi, outKey, window[1..],
                            st.(left := Shift(st.left), deferred := None))
      else
        match Validate(argName, arg, validator, true, multi)
        case Fail(e) => Err(e)
        case Pass =>
          OptionalSpreadElems(argName, validator, multi, outKey, window[1..],
                              Scan(Shift(st.left), None, Push(st.ret, outKey, arg)))
  }

  /** The loop over a required spread's window: every value is validated
      (plural), appended and consumed; the deferred error is left as it is.
      A failure throws at once. */
  function RequiredSpreadElems(argName: string, validator: Validator, multi: MultiValidate,
                               outKey: string, window: seq<Value>, st: Scan): Result<Scan>
    decreases |window|
  {
    if window == [] then Ok(st)
    else
      match Validate(argName, window[0], validator, true, multi)
      case Fail(e) => Err(e)
      case Pass =>
        RequiredSpreadElems(argName, validator, multi, outKey, window[1..],
                            st.(left := Shift(st.left), ret := Push(st.ret, outKey, window[0])))
  }

  /** What the matcher does with one key, `keysAfter` keys before the end. */
  function Step(key: string, validator: Validator, keysAfter: nat, multi: MultiValidate, st: Scan): Result<Scan>
  {
    match KindOf(key)
    case SpreadOptional =>
      var outKey := OutName(key);
      OptionalSpreadElems(Label(key), validator, multi, outKey, SpreadWindow(st.left, keysAfter),
                          st.(ret := st.ret[outKey := Spread([])]))
    case SpreadRequired =>
      var outKey := OutName(key);
      var window := SpreadWindow(st.left, keysAfter);
      if |window| == 0 then Err(Error(TypeError, RequiredMessage(key)))
      else RequiredSpreadElems(Label(key), validator, multi, outKey, window,
                               st.(ret := st.ret[outKey := Spread([])]))
    case Optional =>
      var name := OutName(key);
      if |st.left| == 0 then Ok(st.(ret := st.ret[name := Scalar(Undefined)]))
      else if !Exists(st.left[0]) then
        Ok(Scan(st.left[1..], None, st.ret[name := Scalar(st.left[0])]))
      else
        (match Validate(Label(key), st.left[0], validator, false, multi)
         case Pass => Ok(Scan(st.left[1..], None, st.ret[name := Scalar(st.left[0])]))
         case Fail(e) =>
           Ok(Scan(st.left, if st.deferred.Some? then st.deferred else Some(e),
                   st.ret[name := Scalar(Undefined)])))
    case Required =>
      if |st.left| == 0 then Err(Error(TypeError, RequiredMessage(key)))
      else
        match Validate(key, st.left[0], validator, false, multi)
        case Fail(e) => Err(e)
        case Pass => Ok(Scan(st.left[1..], None, st.ret[key := Scalar(st.left[0])]))
  }

  /** The keys processed left to right, each seeing how many follow it. */
  function Run(entries: seq<(string, Validator)>, multi: MultiValidate, st: Scan): Result<Scan>
    decreases |entries|
  {
    if entries == [] then Ok(st)
    else
      match Step(entries[0].0, entries[0].1, |entries| - 1, multi, st)
      case Err(e) => Err(e)
      case Ok(next) => Run(entries[1..], multi, next)
  }

  /** After the last key: a deferred error still recorded is thrown. */
  function Finish(st: Scan): Result<map<string, Out>>
  {
    match st.deferred
    case Some(e) => Err(e)
    case None => Ok(st.ret)
  }

  /** The reference definition of `assertArgs(args, validation)`. */
  function AssertArgsSpec(args: ArgList, validation: Schema, multi: MultiValidate): Result<map<string, Out>>
  {
    if args.typeOf != "object" || !args.hasLength then Err(Error(TypeError, ArgsMessage))
    else if !validation.isObject then Err(Error(TypeError, ValidationMessage))
    else if SpreadKeyCount(validation.entries) > 1 then Err(Error(PlainError, SingleSpreadMessage))
    else
      match Run(validation.entries, multi, Scan(args.items, None, map[]))
      case Err(e) => Err(e)
      case Ok(st) => Finish(st)
  }

  /** `spreadArgs.forEach(...)` of an optional spread key (index.js:47-60). */
  method ConsumeOptionalSpread(argName: string, validator: Validator, multi: MultiValidate, outKey: string,
                               spreadArgs: seq<Value>, argsLeft: seq<Value>,
                               firstOptionalErr: Option<Error>, ret: map<string, Out>)
    returns (r: Result<Scan>)
    ensures r == OptionalSpreadElems(argName, validator, multi, outKey, spreadArgs,
                                     Scan(argsLeft, firstOptionalErr, ret))
  {
    var left, deferred, out := argsLeft, firstOptionalErr, ret;
    var j := 0;
    while j < |spreadArgs|
      invariant j <= |spreadArgs|
      invariant OptionalSpreadElems(argName, validator, multi, outKey, spreadArgs, Scan(argsLeft, firstOptionalErr, ret))
             == OptionalSpreadElems(argName, validator, multi, outKey, spreadArgs[j..], Scan(left, deferred, out))
    {
      var arg := spreadArgs[j];
      assert spreadArgs[j..][1..] == spreadArgs[j + 1..];
      if !Exists(arg) {
        deferred := None;
        left := Shift(left);
      } else {
        var outcome := Validate(argName, arg, validator, true, multi);
        if outcome.Fail? {
          return Err(outcome.err);
        }
        deferred := None;
        out := Push(out, outKey, arg);
        left := Shift(left);
      }
      j := j + 1;
    }
    return Ok(Scan(left, deferred, out));
  }

  /** `spreadArgs.forEach(...)` of a required spread key (index.js:79-83). */
  method ConsumeRequiredSpread(argName: string, validator: Validator, multi: MultiValidate, outKey: string,
                               spreadArgs: seq<Value>, argsLeft: seq<Value>,
                               firstOptionalErr: Option<Error>, ret: map<string, Out>)
    returns (r: Result<Scan>)
    ensures r == RequiredSpreadElems(argName, validator, multi, outKey, spreadArgs,
                                     Scan(argsLeft, firstOptionalErr, ret))
  {
    var left, out := argsLeft, ret;
    var j := 0;
    while j < |spreadArgs|
      invariant j <= |spreadArgs|
      invariant RequiredSpreadElems(argName, validator, multi, outKey, spreadArgs, Scan(argsLeft, firstOptionalErr, ret))
             == RequiredSpreadElems(argName, validator, multi, outKey, spreadArgs[j..], Scan(left, firstOptionalErr, out))
    {
      var arg := spreadArgs[j];
      assert spreadArgs[j..][1..] == spreadArgs[j + 1..];
      var outcome := Validate(argName, arg, validator, true, multi);
      if outcome.Fail? {
        return Err(outcome.err);
      }
      out := Push(out, outKey, arg);
      left := Shift(left);
      j := j + 1;
    }
    return Ok(Scan(left, firstOptionalErr, out));
  }

  /** `assertArgs(args, validation)` (index.js:10-132). */
  method AssertArgs(args: ArgList, validation: Schema, multi: MultiValidate)
    returns (r: Result<map<string, Out>>)
    ensures r == AssertArgsSpec(args, validation, multi)
  {
    if args.typeOf != "object" || !args.hasLength {
      return Err(Error(TypeError, ArgsMessage));
    }
    if !validation.isObject {
      return Err(Error(TypeError, ValidationMessage));
    }
    var argsLeft := args.items;
    var firstOptionalErr: Option<Error> := None;
    var ret: map<string, Out> := map[];
    var argKeys := validation.entries;
    if SpreadKeyCount(argKeys) > 1 {
      return Err(Error(PlainError, SingleSpreadMessage));
    }

    var i := 0;
    while i < |argKeys|
      invariant i <= |argKeys|
      invariant Run(argKeys, multi, Scan(args.items, None, map[]))
             == Run(argKeys[i..], multi, Scan(argsLeft, firstOptionalErr, ret))
    {
      var key, validator := argKeys[i].0, argKeys[i].1;
      var keysAfter := |argKeys| - i - 1;
      ghost var step := Step(key, validator, keysAfter, multi, Scan(argsLeft, firstOptionalErr, ret));
      assert argKeys[i..][1..] == argKeys[i + 1..];
      if IsSpreadKey(key) {
        var outKey := OutName(key);
        ret := ret[outKey := Spread([])];
        var spreadArgs := SpreadWindow(argsLeft, keysAfter);
        var res;
        if IsOptionalKey(key) {
          res := ConsumeOptionalSpread(Label(key), validator, multi, outKey, spreadArgs, argsLeft, firstOptionalErr, ret);
        } else {
          if |spreadArgs| == 0 {
            return Err(Error(TypeError, RequiredMessage(key)));
          }
          res := ConsumeRequiredSpread(Label(key), validator, multi, outKey, spreadArgs, argsLeft, firstOptionalErr, ret);
        }
        if res.Err? {
          return Err(res.error);
        }
        argsLeft, firstOptionalErr, ret := res.value.left, res.value.deferred, res.value.ret;
      } else if IsOptionalKey(key) {
        var name := OutName(key);
        if |argsLeft| == 0 {
          ret := ret[name := Scalar(Undefined)];
        } else if !Exists(argsLeft[0]) {
          firstOptionalErr := None;
          ret := ret[name := Scalar(argsLeft[0])];
          argsLeft := argsLeft[1..];
        } else {
          var outcome := Validate(Label(key), argsLeft[0], validator, false, multi);
          if outcome.Pass? {
            firstOptionalErr := None;
            ret := ret[name := Scalar(argsLeft[0])];
            argsLeft := argsLeft[1..];
          } else {
            if firstOptionalErr.None? {
              firstOptionalErr := Some(outcome.err);
            }
            ret := ret[name := Scalar(Undefined)];
          }
        }
      } else {
        if |argsLeft| == 0 {
          return Err(Error(TypeError, RequiredMessage(key)));
        }
        var outcome := Validate(key, argsLeft[0], validator, false, multi);
        if outcome.Fail? {
          return Err(outcome.err);
        }
        firstOptionalErr := None;
        ret := ret[key := Scalar(argsLeft[0])];
        argsLeft := argsLeft[1..];
      }
      assert step == Ok(Scan(argsLeft, firstOptionalErr, ret));
      i := i + 1;
    }

    if firstOptionalErr.Some? {
      return Err(firstOptionalErr.value);
    }
    return Ok(ret);
  }
}
