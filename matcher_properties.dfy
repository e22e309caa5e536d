/** What the positional matcher promises, proved about its reference
    definition (and so, through `Matcher.AssertArgs`'s postcondition, about
    the matcher itself). */
module MatcherProperties {
  import opened Js
  import opened Validation
  import opened Keys
  import opened Matcher

  /** The values of a window that exist, in order. */
  function Present(window: seq<Value>): seq<Value>
  {
    if window == [] then []
    else (if Exists(window[0]) then [window[0]] else []) + Present(window[1..])
  }

  /** `a` is what is left of `b` after some values were taken off its front. */
  predicate IsSuffixOf(a: seq<Value>, b: seq<Value>)
  {
    |a| <= |b| && a == b[|b| - |a|..]
  }

  /** The output names of a schema's keys. */
  function OutNames(entries: seq<(string, Validator)>): set<string>
  {
    set i | 0 <= i < |entries| :: OutName(entries[i].0)
  }

  /** `j` is the first position of `window` (among the existing values only,
      when `skipMissing`) whose plural check fails. */
  predicate FailsFirstAt(argName: string, validator: Validator, multi: MultiValidate,
                         window: seq<Value>, j: int, skipMissing: bool)
  {
    0 <= j < |window| && (skipMissing ==> Exists(window[j])) &&
    Validate(argName, window[j], validator, true, multi).Fail? &&
    forall k :: 0 <= k < j && (skipMissing ==> Exists(window[k])) ==>
      Validate(argName, window[k], validator, true, multi).Pass?
  }

  // ---------------------------------------------------------------------
  // Input-shape checks (index.js:11-16, 25-27)

  /** Anything that is not an object with a `length` is refused before the
      schema is looked at. */
  lemma ArgsShapeCheckedFirst(args: ArgList, validation: Schema, multi: MultiValidate)
    requires args.typeOf != "object" || !args.hasLength
    ensures AssertArgsSpec(args, validation, multi)
              == Err(Error(TypeError, "\"args\" must be an array or array-like object (arguments)"))
  {
  }

  /** A schema that is not a strict object is refused next, whatever the
      arguments hold. */
  lemma SchemaShapeChecked(args: ArgList, validation: Schema, multi: MultiValidate)
    requires args.typeOf == "object" && args.hasLength && !validation.isObject
    ensures AssertArgsSpec(args, validation, multi) == Err(Error(TypeError, "\"validation\" must be an object"))
  {
  }

  /** Two spread keys are refused before any value is examined: the outcome
      does not depend on the arguments. */
  lemma SingleSpreadChecked(args: ArgList, validation: Schema, multi: MultiValidate, i: nat, j: nat)
    requires args.typeOf == "object" && args.hasLength && validation.isObject
    requires i < j < |validation.entries|
    requires IsSpreadKey(validation.entries[i].0) && IsSpreadKey(validation.entries[j].0)
    ensures AssertArgsSpec(args, validation, multi)
              == Err(Error(PlainError, "assert-args only supports a single spread argument"))
  {
    SpreadKeyCountAboveOne(validation.entries);
  }

  // ---------------------------------------------------------------------
  // Spread windows (index.js:43-45, 69-71)

  /** A spread window is always a prefix of the remaining values: all of
      them for the last key; otherwise as many as leave one per later key,
      and, when fewer values remain than keys follow, what the negative end
      of `slice` leaves: `2 * length - keysAfter`, or nothing. */
  lemma SpreadWindowShape(left: seq<Value>, keysAfter: nat)
    ensures var w := SpreadWindow(left, keysAfter);
            w == left[..|w|] &&
            |w| == (if keysAfter == 0 then |left|
                    else if keysAfter <= |left| then |left| - keysAfter
                    else if 2 * |left| >= keysAfter then 2 * |left| - keysAfter
                    else 0)
    ensures keysAfter > 0 && |left| > 0 ==> |SpreadWindow(left, keysAfter)| < |left|
  {
  }

  /** The loop over an optional spread's window, when it does not throw:
      every existing value of the window passed. */
  lemma {:induction false} OptionalSpreadPasses(argName: string, validator: Validator, multi: MultiValidate,
                                                outKey: string, window: seq<Value>, st: Scan)
    requires OptionalSpreadElems(argName, validator, multi, outKey, window, st).Ok?
    ensures forall j :: 0 <= j < |window| && Exists(window[j]) ==>
              Validate(argName, window[j], validator, true, multi).Pass?
    decreases |window|
  {
    if window != [] {
      var arg, tail := window[0], window[1..];
      var next := if Exists(arg) then Scan(Shift(st.left), None, Push(st.ret, outKey, arg))
                  else st.(left := Shift(st.left), deferred := None);
      assert OptionalSpreadElems(argName, validator, multi, outKey, window, st)
          == OptionalSpreadElems(argName, validator, multi, outKey, tail, next);
      OptionalSpreadPasses(argName, validator, multi, outKey, tail, next);
      forall j | 0 < j < |window| && Exists(window[j])
        ensures Validate(argName, window[j], validator, true, multi).Pass?
      {
        assert window[j] == tail[j - 1];
      }
    }
  }

  /** The loop over an optional spread's window, when it does not throw: the
      whole window was consumed, its existing values appended in order, and
      the deferred error cleared unless the window was empty. */
  lemma {:induction false} OptionalSpreadSucceeds(argName: string, validator: Validator, multi: MultiValidate,
                                                  outKey: string, window: seq<Value>, st: Scan)
    requires |window| <= |st.left| && window == st.left[..|window|]
    requires outKey in st.ret && st.ret[outKey].Spread?
    requires OptionalSpreadElems(argName, validator, multi, outKey, window, st).Ok?
    ensures OptionalSpreadElems(argName, validator, multi, outKey, window, st).value
              == Scan(st.left[|window|..], if window == [] then st.deferred else None,
                      st.ret[outKey := Spread(st.ret[outKey].values + Present(window))])
    decreases |window|
  {
    if window == [] {
      assert st.ret[outKey].values + [] == st.ret[outKey].values;
      assert st.ret[outKey := Spread(st.ret[outKey].values)] == st.ret;
    } else {
      var arg, tail := window[0], window[1..];
      assert st.left[1..][..|tail|] == tail;
      assert st.left[1..][|tail|..] == st.left[|window|..];
      var next := if Exists(arg) then Scan(Shift(st.left), None, Push(st.ret, outKey, arg))
                  else st.(left := Shift(st.left), deferred := None);
      assert OptionalSpreadElems(argName, validator, multi, outKey, window, st)
          == OptionalSpreadElems(argName, validator, multi, outKey, tail, next);
      OptionalSpreadSucceeds(argName, validator, multi, outKey, tail, next);
      if Exists(arg) {
        assert Present(window) == [arg] + Present(tail);
        assert next.ret[outKey].values == st.ret[outKey].values + [arg];
        assert st.ret[outKey].values + [arg] + Present(tail) == st.ret[outKey].values + Present(window);
      } else {
        assert Present(window) == Present(tail);
      }
    }
  }


  /** The loop over an optional spread's window, when it throws: the error
      is that of the first existing value that fails. */
  lemma {:induction false} OptionalSpreadFails(argName: string, validator: Validator, multi: MultiValidate,
                                               outKey: string, window: seq<Value>, st: Scan)
    requires OptionalSpreadElems(argName, validator, multi, outKey, window, st).Err?
    ensures exists j :: FailsFirstAt(argName, validator, multi, window, j, true) &&
              OptionalSpreadElems(argName, validator, multi, outKey, window, st).error
                == Validate(argName, window[j], validator, true, multi).err
    decreases |window|
  {
    var arg, tail := window[0], window[1..];
    var r := OptionalSpreadElems(argName, validator, multi, outKey, window, st);
    if Exists(arg) && Validate(argName, arg, validator, true, multi).Fail? {
      assert FailsFirstAt(argName, validator, multi, window, 0, true);
    } else {
      var next := if Exists(arg) then Scan(Shift(st.left), None, Push(st.ret, outKey, arg))
                  else st.(left := Shift(st.left), deferred := None);
      assert r == OptionalSpreadElems(argName, validator, multi, outKey, tail, next);
      OptionalSpreadFails(argName, validator, multi, outKey, tail, next);
      var j :| FailsFirstAt(argName, validator, multi, tail, j, true) &&
               r.error == Validate(argName, tail[j], validator, true, multi).err;
      assert FailsFirstAt(argName, validator, multi, window, j + 1, true) by {
        forall k | 0 <= k < j + 1 && Exists(window[k])
          ensures Validate(argName, window[k], validator, true, multi).Pass?
        {
          if k > 0 {
            assert window[k] == tail[k - 1];
          }
        }
      }
    }
  }

  /** The loop over a required spread's window, when it does not throw:
      every value of the window passed. */
  lemma {:induction false} RequiredSpreadPasses(argName: string, validator: Validator, multi: MultiValidate,
                                                outKey: string, window: seq<Value>, st: Scan)
    requires RequiredSpreadElems(argName, validator, multi, outKey, window, st).Ok?
    ensures forall j :: 0 <= j < |window| ==> Validate(argName, window[j], validator, true, multi).Pass?
    decreases |window|
  {
    if window != [] {
      var arg, tail := window[0], window[1..];
      var next := st.(left := Shift(st.left), ret := Push(st.ret, outKey, arg));
      assert RequiredSpreadElems(argName, validator, multi, outKey, window, st)
          == RequiredSpreadElems(argName, validator, multi, outKey, tail, next);
      RequiredSpreadPasses(argName, validator, multi, outKey, tail, next);
      forall j | 0 < j < |window|
        ensures Validate(argName, window[j], validator, true, multi).Pass?
      {
        assert window[j] == tail[j - 1];
      }
    }
  }

  /** The loop over a required spread's window, when it does not throw: the
      whole window was consumed and appended in order, and the deferred error
      is as it was. */
  lemma {:induction false} RequiredSpreadSucceeds(argName: string, validator: Validator, multi: MultiValidate,
                                                  outKey: string, window: seq<Value>, st: Scan)
    requires |window| <= |st.left|
    requires outKey in st.ret && st.ret[outKey].Spread?
    requires RequiredSpreadElems(argName, validator, multi, outKey, window, st).Ok?
    ensures RequiredSpreadElems(argName, validator, multi, outKey, window, st).value
              == Scan(st.left[|window|..], st.deferred, st.ret[outKey := Spread(st.ret[outKey].values + window)])
    decreases |window|
  {
    if window == [] {
      assert st.ret[outKey].values + [] == st.ret[outKey].values;
      assert st.ret[outKey := Spread(st.ret[outKey].values)] == st.ret;
    } else {
      var arg, tail := window[0], window[1..];
      assert st.left[1..][|tail|..] == st.left[|window|..];
      var next := st.(left := Shift(st.left), ret := Push(st.ret, outKey, arg));
      assert RequiredSpreadElems(argName, validator, multi, outKey, window, st)
          == RequiredSpreadElems(argName, validator, multi, outKey, tail, next);
      RequiredSpreadSucceeds(argName, validator, multi, outKey, tail, next);
      var v := st.ret[outKey].values;
      assert next.left == st.left[1..];
      assert next.ret[outKey].values == v + [arg];
      assert v + [arg] + tail == v + window;
      assert next.ret[outKey := Spread(v + window)] == st.ret[outKey := Spread(v + window)];
    }
  }

  /** The loop over a required spread's window, when it throws: the error is
      that of the first value that fails. */
  lemma {:induction false} RequiredSpreadFails(argName: string, validator: Validator, multi: MultiValidate,
                                               outKey: string, window: seq<Value>, st: Scan)
    requires RequiredSpreadElems(argName, validator, multi, outKey, window, st).Err?
    ensures exists j :: FailsFirstAt(argName, validator, multi, window, j, false) &&
              RequiredSpreadElems(argName, validator, multi, outKey, window, st).error
                == Validate(argName, window[j], validator, true, multi).err
    decreases |window|
  {
    var arg, tail := window[0], window[1..];
    var r := RequiredSpreadElems(argName, validator, multi, outKey, window, st);
    if Validate(argName, arg, validator, true, multi).Fail? {
      assert FailsFirstAt(argName, validator, multi, window, 0, false);
    } else {
      var next := st.(left := Shift(st.left), ret := Push(st.ret, outKey, arg));
      RequiredSpreadFails(argName, validator, multi, outKey, tail, next);
      var j :| FailsFirstAt(argName, validator, multi, tail, j, false) &&
               r.error == Validate(argName, tail[j], validator, true, multi).err;
      assert FailsFirstAt(argName, validator, multi, window, j + 1, false) by {
        forall k | 0 <= k < j + 1
          ensures Validate(argName, window[k], validator, true, multi).Pass?
        {
          if k > 0 {
            assert window[k] == tail[k - 1];
          }
        }
      }
    }
  }

  // ---------------------------------------------------------------------
  // One key (index.js:29-125)

  /** A required scalar key: with no value left it throws `"key" is
      required`; otherwise the front value is checked (singular) and a
      failure is thrown as it is, even when an optional error is deferred; a
      success consumes exactly that value, stores it under the key and clears
      the deferred error. */
  lemma RequiredStep(key: string, validator: Validator, keysAfter: nat, multi: MultiValidate, st: Scan)
    requires KindOf(key) == Required
    ensures |st.left| == 0 ==>
              Step(key, validator, keysAfter, multi, st) == Err(Error(TypeError, Quote(key) + " is required"))
    ensures |st.left| > 0 && Validate(key, st.left[0], validator, false, multi).Fail? ==>
              Step(key, validator, keysAfter, multi, st) == Err(Validate(key, st.left[0], validator, false, multi).err)
    ensures |st.left| > 0 && Validate(key, st.left[0], validator, false, multi).Pass? ==>
              Step(key, validator, keysAfter, multi, st) == Ok(Scan(st.left[1..], None, st.ret[key := Scalar(st.left[0])]))
  {
  }

  /** An optional scalar key never throws.  With no value left it stores
      `undefined` and consumes nothing; a `null` or `undefined` front value is
      consumed and stored as it is, whatever the validator, and clears the
      deferred error; a value that passes is consumed and stored and clears
      it; a value that fails is left for the next key, `undefined` is stored,
      and the failure is deferred unless an earlier one already is. */
  lemma OptionalStep(key: string, validator: Validator, keysAfter: nat, multi: MultiValidate, st: Scan)
    requires KindOf(key) == Optional
    ensures Step(key, validator, keysAfter, multi, st).Ok?
    ensures var s := Step(key, validator, keysAfter, multi, st).value;
            var name := OutName(key);
            (|st.left| == 0 ==> s == st.(ret := st.ret[name := Scalar(Undefined)])) &&
            (|st.left| > 0 && !Exists(st.left[0]) ==>
               s == Scan(st.left[1..], None, st.ret[name := Scalar(st.left[0])])) &&
            (|st.left| > 0 && Exists(st.left[0]) && Validate(Label(key), st.left[0], validator, false, multi).Pass? ==>
               s == Scan(st.left[1..], None, st.ret[name := Scalar(st.left[0])])) &&
            (|st.left| > 0 && Exists(st.left[0]) && Validate(Label(key), st.left[0], validator, false, multi).Fail? ==>
               s.left == st.left && s.ret == st.ret[name := Scalar(Undefined)] &&
               s.deferred == (if st.deferred.Some? then st.deferred
                              else Some(Validate(Label(key), st.left[0], validator, false, multi).err)))
  {
  }

  /** An optional spread key takes its window: it throws the first failure
      among the window's existing values; otherwise it consumes the whole
      window, stores exactly the existing values under its output name, and
      clears the deferred error when the window was not empty. */
  lemma OptionalSpreadStep(key: string, validator: Validator, keysAfter: nat, multi: MultiValidate, st: Scan)
    requires KindOf(key) == SpreadOptional
    ensures var w := SpreadWindow(st.left, keysAfter);
            var r := Step(key, validator, keysAfter, multi, st);
            (r.Ok? <==> forall j :: 0 <= j < |w| && Exists(w[j]) ==> Validate(Label(key), w[j], validator, true, multi).Pass?) &&
            (r.Ok? ==> r.value == Scan(st.left[|w|..], if w == [] then st.deferred else None,
                                      st.ret[OutName(key) := Spread(Present(w))])) &&
            (r.Err? ==> exists j :: FailsFirstAt(Label(key), validator, multi, w, j, true) &&
                                    r.error == Validate(Label(key), w[j], validator, true, multi).err)
  {
    SpreadWindowShape(st.left, keysAfter);
    var outKey, w := OutName(key), SpreadWindow(st.left, keysAfter);
    var st1 := st.(ret := st.ret[outKey := Spread([])]);
    var r := Step(key, validator, keysAfter, multi, st);
    assert r == OptionalSpreadElems(Label(key), validator, multi, outKey, w, st1);
    if r.Ok? {
      OptionalSpreadSucceeds(Label(key), validator, multi, outKey, w, st1);
      OptionalSpreadPasses(Label(key), validator, multi, outKey, w, st1);
      assert st1.ret[outKey].values + Present(w) == Present(w);
    } else {
      OptionalSpreadFails(Label(key), validator, multi, outKey, w, st1);
    }
  }

  /** A required spread key takes its window: an empty window throws
      `"...name" is required`; otherwise it throws the first failure in the
      window, or consumes the whole window and stores it under its output
      name, leaving the deferred error as it was. */
  lemma RequiredSpreadStep(key: string, validator: Validator, keysAfter: nat, multi: MultiValidate, st: Scan)
    requires KindOf(key) == SpreadRequired
    ensures var w := SpreadWindow(st.left, keysAfter);
            var r := Step(key, validator, keysAfter, multi, st);
            (w == [] ==> r == Err(Error(TypeError, Quote(key) + " is required"))) &&
            (w != [] ==> (r.Ok? <==> forall j :: 0 <= j < |w| ==> Validate(key, w[j], validator, true, multi).Pass?)) &&
            (r.Ok? ==> r.value == Scan(st.left[|w|..], st.deferred, st.ret[OutName(key) := Spread(w)])) &&
            (w != [] && r.Err? ==> exists j :: FailsFirstAt(key, validator, multi, w, j, false) &&
                                               r.error == Validate(key, w[j], validator, true, multi).err)
  {
    SpreadWindowShape(st.left, keysAfter);
    var outKey, w := OutName(key), SpreadWindow(st.left, keysAfter);
    var st1 := st.(ret := st.ret[outKey := Spread([])]);
    var r := Step(key, validator, keysAfter, multi, st);
    if w != [] {
      assert Label(key) == key;
      assert r == RequiredSpreadElems(key, validator, multi, outKey, w, st1);
      if r.Ok? {
        RequiredSpreadSucceeds(key, validator, multi, outKey, w, st1);
        RequiredSpreadPasses(key, validator, multi, outKey, w, st1);
        assert st1.ret[outKey].values + w == w;
        assert st1.ret[outKey := Spread(w)] == st.ret[outKey := Spread(w)];
      } else {
        RequiredSpreadFails(key, validator, multi, outKey, w, st1);
        var j :| FailsFirstAt(key, validator, multi, w, j, false) &&
                 r.error == Validate(key, w[j], validator, true, multi).err;
        assert !Validate(key, w[j], validator, true, multi).Pass?;
      }
    }
  }

  /** Whatever the key, a step that does not throw has taken values off the
      front of the queue only, has stored a field under the key's output name
      and touched no other field. */
  lemma StepShape(key: string, validator: Validator, keysAfter: nat, multi: MultiValidate, st: Scan)
    ensures var r := Step(key, validator, keysAfter, multi, st);
            r.Ok? ==> IsSuffixOf(r.value.left, st.left) &&
                      r.value.ret.Keys == st.ret.Keys + {OutName(key)} &&
                      forall k :: k in st.ret && k != OutName(key) ==> r.value.ret[k] == st.ret[k]
  {
    var r := Step(key, validator, keysAfter, multi, st);
    var w := SpreadWindow(st.left, keysAfter);
    match KindOf(key)
    case SpreadOptional =>
      OptionalSpreadStep(key, validator, keysAfter, multi, st);
      SpreadWindowShape(st.left, keysAfter);
      UpdateKeepsOthers(st.ret, OutName(key), Spread(Present(w)));
    case SpreadRequired =>
      RequiredSpreadStep(key, validator, keysAfter, multi, st);
      SpreadWindowShape(st.left, keysAfter);
      UpdateKeepsOthers(st.ret, OutName(key), Spread(w));
    case Optional =>
      OptionalStep(key, validator, keysAfter, multi, st);
      if r.Ok? {
        UpdateKeepsOthers(st.ret, OutName(key), r.value.ret[OutName(key)]);
      }
    case Required =>
      RequiredStep(key, validator, keysAfter, multi, st);
      if |st.left| > 0 {
        UpdateKeepsOthers(st.ret, key, Scalar(st.left[0]));
      }
  }

  /** Storing a field adds its name and leaves every other field alone. */
  lemma UpdateKeepsOthers(ret: map<string, Out>, name: string, v: Out)
    ensures ret[name := v].Keys == ret.Keys + {name}
    ensures forall k :: k in ret && k != name ==> ret[name := v][k] == ret[k]
  {
  }

  // ---------------------------------------------------------------------
  // The whole pass

  /** The queue only ever shrinks from the front, and a pass that does not
      throw has stored a field under every key's output name. */
  lemma {:induction false} RunShape(entries: seq<(string, Validator)>, multi: MultiValidate, st: Scan)
    ensures var r := Run(entries, multi, st);
            r.Ok? ==> IsSuffixOf(r.value.left, st.left) && r.value.ret.Keys == st.ret.Keys + OutNames(entries)
    decreases |entries|
  {
    if entries != [] {
      var r := Step(entries[0].0, entries[0].1, |entries| - 1, multi, st);
      StepShape(entries[0].0, entries[0].1, |entries| - 1, multi, st);
      if r.Ok? {
        RunShape(entries[1..], multi, r.value);
        OutNamesCons(entries);
      }
    }
  }

  /** The output names of a schema are its first key's and the rest's. */
  lemma OutNamesCons(entries: seq<(string, Validator)>)
    requires entries != []
    ensures OutNames(entries) == {OutName(entries[0].0)} + OutNames(entries[1..])
  {
    forall n | n in OutNames(entries)
      ensures n in {OutName(entries[0].0)} + OutNames(entries[1..])
    {
      var i :| 0 <= i < |entries| && n == OutName(entries[i].0);
      if i > 0 {
        assert entries[1..][i - 1] == entries[i];
      }
    }
    forall n | n in OutNames(entries[1..])
      ensures n in OutNames(entries)
    {
      var i :| 0 <= i < |entries[1..]| && n == OutName(entries[1..][i].0);
      assert entries[1..][i] == entries[i + 1];
    }
  }

  /** A successful match returns exactly one field per schema key, named by
      the key with its syntax stripped. */
  lemma ResultFields(args: ArgList, validation: Schema, multi: MultiValidate)
    ensures var r := AssertArgsSpec(args, validation, multi);
            r.Ok? ==> r.value.Keys == OutNames(validation.entries)
  {
    RunShape(validation.entries, multi, Scan(args.items, None, map[]));
  }

  /** After the last key the deferred error, if one is still recorded, is
      thrown instead of returning; the values left over are ignored. */
  lemma DeferredThrownAtEnd(args: ArgList, validation: Schema, multi: MultiValidate)
    requires args.typeOf == "object" && args.hasLength && validation.isObject
    requires SpreadKeyCount(validation.entries) <= 1
    requires Run(validation.entries, multi, Scan(args.items, None, map[])).Ok?
    ensures var s := Run(validation.entries, multi, Scan(args.items, None, map[])).value;
            AssertArgsSpec(args, validation, multi) == (if s.deferred.Some? then Err(s.deferred.value) else Ok(s.ret))
  {
  }

  // ---------------------------------------------------------------------
  // Schemas of required scalar keys only

  predicate AllRequired(entries: seq<(string, Validator)>)
  {
    forall i :: 0 <= i < |entries| ==> KindOf(entries[i].0) == Required
  }

  predicate DistinctKeys(entries: seq<(string, Validator)>)
  {
    forall i, j :: 0 <= i < j < |entries| ==> entries[i].0 != entries[j].0
  }

  /** With one passing value per required key, the pass consumes exactly one
      value per key, clears the deferred error, and stores each value under
      its key. */
  lemma {:induction false} RequiredOnlyRun(entries: seq<(string, Validator)>, multi: MultiValidate, st: Scan)
    requires AllRequired(entries) && DistinctKeys(entries)
    requires |entries| <= |st.left|
    requires forall i :: 0 <= i < |entries| ==> Validate(entries[i].0, st.left[i], entries[i].1, false, multi).Pass?
    ensures Run(entries, multi, st).Ok?
    ensures var s := Run(entries, multi, st).value;
            s.left == st.left[|entries|..] &&
            s.deferred == (if entries == [] then st.deferred else None) &&
            (forall i :: 0 <= i < |entries| ==> entries[i].0 in s.ret && s.ret[entries[i].0] == Scalar(st.left[i])) &&
            (forall k :: k in st.ret && k !in OutNames(entries) ==> k in s.ret && s.ret[k] == st.ret[k])
    decreases |entries|
  {
    if entries != [] {
      var key := entries[0].0;
      var next := Scan(st.left[1..], None, st.ret[key := Scalar(st.left[0])]);
      RequiredStep(key, entries[0].1, |entries| - 1, multi, st);
      var tail := entries[1..];
      forall i | 0 <= i < |tail|
        ensures Validate(tail[i].0, next.left[i], tail[i].1, false, multi).Pass?
      {
        assert tail[i] == entries[i + 1];
      }
      RequiredOnlyRun(tail, multi, next);
      assert st.left[1..][|tail|..] == st.left[|entries|..];
      var s := Run(entries, multi, st).value;
      assert key !in OutNames(tail);
      forall i | 0 <= i < |entries|
        ensures entries[i].0 in s.ret && s.ret[entries[i].0] == Scalar(st.left[i])
      {
        if i > 0 {
          assert tail[i - 1] == entries[i];
        }
      }
      forall k | k in st.ret && k !in OutNames(entries)
        ensures k in s.ret && s.ret[k] == st.ret[k]
      {
        assert k != key by { assert OutName(entries[0].0) in OutNames(entries); }
        assert k !in OutNames(tail);
      }
    }
  }

  /** Too few values for a schema of required keys (the present ones all
      passing): the first key without a value throws `"key" is required`. */
  lemma {:induction false} RequiredOnlyMissingRun(entries: seq<(string, Validator)>, multi: MultiValidate, st: Scan)
    requires AllRequired(entries)
    requires |st.left| < |entries|
    requires forall i :: 0 <= i < |st.left| ==> Validate(entries[i].0, st.left[i], entries[i].1, false, multi).Pass?
    ensures Run(entries, multi, st) == Err(Error(TypeError, Quote(entries[|st.left|].0) + " is required"))
    decreases |entries|
  {
    var key := entries[0].0;
    RequiredStep(key, entries[0].1, |entries| - 1, multi, st);
    if |st.left| > 0 {
      var next := Scan(st.left[1..], None, st.ret[key := Scalar(st.left[0])]);
      var tail := entries[1..];
      forall i | 0 <= i < |next.left|
        ensures Validate(tail[i].0, next.left[i], tail[i].1, false, multi).Pass?
      {
        assert tail[i] == entries[i + 1];
      }
      RequiredOnlyMissingRun(tail, multi, next);
      assert tail[|next.left|] == entries[|st.left|];
    }
  }

  /** No required key is a spread key. */
  lemma AllRequiredNoSpread(entries: seq<(string, Validator)>)
    requires AllRequired(entries)
    ensures SpreadKeyCount(entries) == 0
  {
    SpreadKeyCountPositive(entries);
  }

  /** Round trip: for a schema of required keys, values that pass come back
      one per key, read in schema order, and the values beyond the last key
      are ignored. */
  lemma RequiredOnlyRoundTrip(items: seq<Value>, entries: seq<(string, Validator)>, multi: MultiValidate)
    requires AllRequired(entries) && DistinctKeys(entries)
    requires |entries| <= |items|
    requires forall i :: 0 <= i < |entries| ==> Validate(entries[i].0, items[i], entries[i].1, false, multi).Pass?
    ensures var r := AssertArgsSpec(ArgList("object", true, items), Schema(true, entries), multi);
            r.Ok? && r.value.Keys == OutNames(entries) &&
            (forall i :: 0 <= i < |entries| ==> r.value[entries[i].0] == Scalar(items[i]))
  {
    AllRequiredNoSpread(entries);
    RequiredOnlyRun(entries, multi, Scan(items, None, map[]));
    ResultFields(ArgList("object", true, items), Schema(true, entries), multi);
  }

  /** For a schema of required keys with fewer values than keys (those
      present all passing), the first unfilled key is reported missing. */
  lemma RequiredOnlyMissing(items: seq<Value>, entries: seq<(string, Validator)>, multi: MultiValidate)
    requires AllRequired(entries)
    requires |items| < |entries|
    requires forall i :: 0 <= i < |items| ==> Validate(entries[i].0, items[i], entries[i].1, false, multi).Pass?
    ensures AssertArgsSpec(ArgList("object", true, items), Schema(true, entries), multi)
              == Err(Error(TypeError, Quote(entries[|items|].0) + " is required"))
  {
    AllRequiredNoSpread(entries);
    RequiredOnlyMissingRun(entries, multi, Scan(items, None, map[]));
  }
}
