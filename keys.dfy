/** The surface syntax of schema keys: `name` (required), `[name]`
    (optional), `...name` (required spread) and `[...name]` (optional
    spread).  lib/is-optional-key.js and lib/is-spread-key.js are not part of
    this model; the two predicates below are the forms the matcher slices. */
module Keys {
  import opened Js

  datatype KeyKind = Required | Optional | SpreadRequired | SpreadOptional

  /** A key wrapped in square brackets. */
  predicate IsOptionalKey(key: string)
  {
    |key| >= 2 && key[0] == '[' && key[|key| - 1] == ']'
  }

  /** A key that starts with an ellipsis, directly or inside the brackets. */
  predicate IsSpreadKey(key: string)
  {
    StartsWith(key, "...") || (IsOptionalKey(key) && StartsWith(key[1..], "..."))
  }

  /** The classification the matcher's branches make, spread tested first. */
  function KindOf(key: string): KeyKind
  {
    if IsSpreadKey(key) then
      (if IsOptionalKey(key) then SpreadOptional else SpreadRequired)
    else if IsOptionalKey(key) then Optional
    else Required
  }

  /** The name a key's value is stored under in the result. */
  function OutName(key: string): string
  {
    match KindOf(key)
    case SpreadOptional => Slice(key, 4, -1)
    case SpreadRequired => Slice(key, 3, |key|)
    case Optional => Slice(key, 1, -1)
    case Required => key
  }

  /** The name a key's values are validated (and its errors reported) under:
      brackets stripped, the ellipsis kept. */
  function Label(key: string): string
  {
    match KindOf(key)
    case SpreadOptional => Slice(key, 1, -1)
    case SpreadRequired => key
    case Optional => Slice(key, 1, -1)
    case Required => key
  }

  /** `argKeys.filter(isSpreadKey).length`. */
  function SpreadKeyCount<V>(entries: seq<(string, V)>): nat
  {
    if entries == [] then 0
    else (if IsSpreadKey(entries[0].0) then 1 else 0) + SpreadKeyCount(entries[1..])
  }

  /** `[...name]` is an optional spread stored under `name` and reported as
      `...name`. */
  lemma OptionalSpreadKeyNames(name: string)
    ensures KindOf("[..." + name + "]") == SpreadOptional
    ensures OutName("[..." + name + "]") == name
    ensures Label("[..." + name + "]") == "..." + name
  {
    var key := "[..." + name + "]";
    assert key[1..][..3] == "...";
    assert key[4..|key| - 1] == name;
    assert key[1..|key| - 1] == "..." + name;
  }

  /** `...name` is a required spread stored under `name` and reported as
      `...name`. */
  lemma RequiredSpreadKeyNames(name: string)
    ensures KindOf("..." + name) == SpreadRequired
    ensures OutName("..." + name) == name
    ensures Label("..." + name) == "..." + name
  {
    var key := "..." + name;
    assert key[..3] == "...";
    assert key[3..] == name;
  }

  /** `[name]`, where `name` does not itself start with an ellipsis, is an
      optional scalar stored and reported under `name`. */
  lemma OptionalKeyNames(name: string)
    requires !StartsWith(name, "...")
    ensures KindOf("[" + name + "]") == Optional
    ensures OutName("[" + name + "]") == name
    ensures Label("[" + name + "]") == name
  {
    var key := "[" + name + "]";
    assert key[1..|key| - 1] == name;
    assert key[1..] == name + "]";
  }

  /** Any other key is a required scalar stored and reported under itself. */
  lemma RequiredKeyNames(key: string)
    requires !IsOptionalKey(key) && !StartsWith(key, "...")
    ensures KindOf(key) == Required && OutName(key) == key && Label(key) == key
  {
  }

  /** Conversely, every key is one of the four surface forms around its
      output name. */
  lemma KeyForms(key: string)
    ensures KindOf(key) == SpreadOptional ==> key == "[..." + OutName(key) + "]"
    ensures KindOf(key) == SpreadRequired ==> key == "..." + OutName(key)
    ensures KindOf(key) == Optional ==> key == "[" + OutName(key) + "]" && !StartsWith(OutName(key), "...")
    ensures KindOf(key) == Required ==> key == OutName(key)
  {
    match KindOf(key)
    case SpreadOptional =>
      assert StartsWith(key[1..], "...");
      assert key[1..4] == key[1..][..3];
      assert key == key[..4] + key[4..|key| - 1] + key[|key| - 1..];
    case SpreadRequired =>
      assert key == key[..3] + key[3..];
    case Optional =>
      assert key == key[..1] + key[1..|key| - 1] + key[|key| - 1..];
    case Required =>
  }

  /** The matcher's pre-pass rejects a schema exactly when two of its keys
      are spread keys. */
  lemma {:induction false} SpreadKeyCountAboveOne<V>(entries: seq<(string, V)>)
    ensures SpreadKeyCount(entries) > 1 <==>
            exists i, j :: 0 <= i < j < |entries| && IsSpreadKey(entries[i].0) && IsSpreadKey(entries[j].0)
  {
    if entries != [] {
      var tail := entries[1..];
      SpreadKeyCountAboveOne(tail);
      SpreadKeyCountPositive(tail);
      if SpreadKeyCount(entries) > 1 {
        if IsSpreadKey(entries[0].0) {
          var j :| 0 <= j < |tail| && IsSpreadKey(tail[j].0);
          assert IsSpreadKey(entries[j + 1].0);
        } else {
          var i, j :| 0 <= i < j < |tail| && IsSpreadKey(tail[i].0) && IsSpreadKey(tail[j].0);
          assert IsSpreadKey(entries[i + 1].0) && IsSpreadKey(entries[j + 1].0);
        }
      }
      if exists i, j :: 0 <= i < j < |entries| && IsSpreadKey(entries[i].0) && IsSpreadKey(entries[j].0) {
        var i, j :| 0 <= i < j < |entries| && IsSpreadKey(entries[i].0) && IsSpreadKey(entries[j].0);
        assert IsSpreadKey(tail[j - 1].0);
        if i > 0 {
          assert IsSpreadKey(tail[i - 1].0);
        }
      }
    }
  }

  /** Some key is a spread key exactly when the count is positive. */
  lemma {:induction false} SpreadKeyCountPositive<V>(entries: seq<(string, V)>)
    ensures SpreadKeyCount(entries) > 0 <==> exists j :: 0 <= j < |entries| && IsSpreadKey(entries[j].0)
  {
    if entries != [] {
      var tail := entries[1..];
      SpreadKeyCountPositive(tail);
      if exists j :: 0 <= j < |entries| && IsSpreadKey(entries[j].0) {
        var j :| 0 <= j < |entries| && IsSpreadKey(entries[j].0);
        if j > 0 {
          assert IsSpreadKey(tail[j - 1].0);
        }
      }
      if SpreadKeyCount(tail) > 0 {
        var j :| 0 <= j < |tail| && IsSpreadKey(tail[j].0);
        assert IsSpreadKey(entries[j + 1].0);
      }
    }
  }
}
