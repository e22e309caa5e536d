/** JavaScript values, errors and the array/string helpers that the argument
    matcher and the validator rely on, seen only through what they inspect. */
module Js {

  datatype Option<T> = None | Some(value: T)

  /** The error constructors the library throws itself (TypeError and Error),
      and any other constructor a user predicate may throw. */
  datatype ErrorKind = TypeError | PlainError | OtherError(name: string)

  /** A thrown error, reduced to its kind and its message. */
  datatype Error = Error(kind: ErrorKind, message: string)

  /** A computation that returns a value or throws an error. */
  datatype Result<T> = Ok(value: T) | Err(error: Error)

  /** Identity of a constructor function; a value is an instance of every
      constructor whose prototype lies on its prototype chain. */
  type ClassId = nat

  /** A JavaScript value as the library observes it: `undefined`, `null`, or a
      defined value with its `typeof` string, the constructors it is an
      instance of, and whether the strict-object test (`101/is-object`, whose
      definition is not part of this model) accepts it.  Everything else
      about a value is abstracted away. */
  datatype Value =
    | Undefined
    | Null
    | Defined(typeOf: string, protos: set<ClassId>, strictObject: bool)

  /** The `typeof` operator. */
  function TypeOf(v: Value): string
  {
    match v
    case Undefined => "undefined"
    case Null => "object"
    case Defined(t, _, _) => t
  }

  /** The `instanceof` operator against the constructor `c`. */
  predicate InstanceOf(v: Value, c: ClassId)
  {
    v.Defined? && c in v.protos
  }

  /** `101/is-object`: the strict-object test. */
  predicate IsStrictObject(v: Value)
  {
    v.Defined? && v.strictObject
  }

  /** `101/exists`: neither `null` nor `undefined`. */
  predicate Exists(v: Value)
  {
    !v.Undefined? && !v.Null?
  }

  /** A relative index as `Array.prototype.slice` and `String.prototype.slice`
      resolve it (ECMA-262 5.1, sections 15.4.4.10 and 15.5.4.13): a negative
      index counts from the end, and the result is clamped to `[0, len]`. */
  function RelativeIndex(rel: int, len: nat): nat
  {
    if rel < 0 then (if len + rel > 0 then len + rel else 0)
    else if rel < len then rel else len
  }

  /** `s.slice(start, end)`: the elements from the resolved start up to (not
      including) the resolved end, empty when the end does not lie after the
      start. */
  function Slice<T>(s: seq<T>, start: int, end: int): (r: seq<T>)
    ensures 0 <= start <= end <= |s| ==> r == s[start..end]
    ensures start == 0 && 0 <= end ==> r == s[..if end <= |s| then end else |s|]
    ensures start == 0 && end < 0 ==> r == s[..if |s| + end >= 0 then |s| + end else 0]
    ensures 0 <= start && end < 0 && start <= |s| + end ==> r == s[start..|s| + end]
  {
    var k := RelativeIndex(start, |s|);
    var final := RelativeIndex(end, |s|);
    if k < final then s[k..final] else []
  }

  /** What `Array.prototype.shift` leaves in the array: the front element
      removed, or nothing changed when the array is empty.  Putting the
      removed element back in front gives the original array. */
  function Shift<T>(s: seq<T>): (r: seq<T>)
    ensures |s| > 0 ==> s == [s[0]] + r && |r| == |s| - 1
    ensures |s| == 0 ==> r == []
  {
    if |s| > 0 then s[1..] else s
  }

  predicate StartsWith(s: string, prefix: string)
  {
    |prefix| <= |s| && s[..|prefix|] == prefix
  }

  /** A name wrapped in double quotes, as every message of the library
      quotes the argument it is about. */
  function Quote(name: string): (q: string)
    ensures |q| == |name| + 2 && q[0] == '"' && q[|q| - 1] == '"'
    ensures q[1..|q| - 1] == name
  {
    "\"" + name + "\""
  }

  /** Appending keeps a prefix. */
  lemma StartsWithAppend(s: string, t: string, prefix: string)
    requires StartsWith(s, prefix)
    ensures StartsWith(s + t, prefix)
  {
    assert (s + t)[..|prefix|] == s[..|prefix|];
  }
}
