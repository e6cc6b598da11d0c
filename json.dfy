/** Decoded JSON values as the Python code sees them (`json.load`, `response.json()`),
    with the few Python operations on them the harvesters rely on. */
module Json {
  import opened Wrappers

  /** A JSON value. Objects keep their keys in insertion order, as Python dicts do.
      A `JObj` stands for the dict the decoder produced, so its keys are distinct:
      when the text repeats a key, Python's decoder keeps only the last value, and
      that decoding step is not part of this model. */
  datatype Json =
    | JNull
    | JBool(b: bool)
    | JNum(n: int)
    | JStr(s: string)
    | JArr(items: seq<Json>)
    | JObj(fields: seq<(string, Json)>)

  /** The fields of a Python dict, in insertion order. */
  type Fields = seq<(string, Json)>

  /** The Python exceptions the modelled code can raise. */
  datatype PyError = KeyError | IndexError | TypeError | ValueError | AttributeError | OSError

  /** `d.get(key)`: the value of the field named `key` (the first one, which is the
      only one in a decoded dict). */
  function Get(fs: Fields, key: string): Option<Json>
  {
    if |fs| == 0 then None
    else if fs[0].0 == key then Some(fs[0].1)
    else Get(fs[1..], key)
  }

  /** `d.get(key)` finds a value exactly when some field has that name, and the value
      it finds is the first such field's. */
  lemma {:induction false} GetSpec(fs: Fields, key: string)
    ensures Get(fs, key).Some? <==> exists i :: 0 <= i < |fs| && fs[i].0 == key
    ensures Get(fs, key).Some? ==>
      exists i :: 0 <= i < |fs| && fs[i].0 == key && fs[i].1 == Get(fs, key).value &&
        (forall j :: 0 <= j < i ==> fs[j].0 != key)
  {
    if |fs| > 0 && fs[0].0 != key {
      GetSpec(fs[1..], key);
      if Get(fs, key).Some? {
        var i :| 0 <= i < |fs[1..]| && fs[1..][i].0 == key && fs[1..][i].1 == Get(fs, key).value &&
          (forall j :: 0 <= j < i ==> fs[1..][j].0 != key);
        assert fs[i + 1] == fs[1..][i];
        assert forall j :: 1 <= j < i + 1 ==> fs[j] == fs[1..][j - 1];
      } else {
        assert forall i :: 1 <= i < |fs| ==> fs[i] == fs[1..][i - 1];
      }
    }
  }

  /** `d.get(key, default)`. */
  function GetOr(fs: Fields, key: string, default: Json): Json
  {
    match Get(fs, key)
    case Some(v) => v
    case None => default
  }

  /** Python truthiness of a decoded JSON value. */
  predicate Truthy(j: Json)
  {
    match j
    case JNull => false
    case JBool(b) => b
    case JNum(n) => n != 0
    case JStr(s) => s != ""
    case JArr(xs) => xs != []
    case JObj(fs) => fs != []
  }

  /** `j[0]` in Python: the first element of a list, the first character of a string,
      a `KeyError` on a dict (JSON keys are strings, never `0`), a `TypeError` otherwise. */
  function Index0(j: Json): (r: Result<Json, PyError>)
    ensures r.Ok? <==> (j.JArr? && j.items != []) || (j.JStr? && j.s != "")
    ensures j.JArr? && j.items != [] ==> r == Ok(j.items[0])
  {
    match j
    case JArr(xs) => if xs == [] then Err(IndexError) else Ok(xs[0])
    case JStr(s) => if s == "" then Err(IndexError) else Ok(JStr(s[..1]))
    case JObj(_) => Err(KeyError)
    case _ => Err(TypeError)
  }

  /** The strings of a JSON list, in order; other elements are passed over. */
  function Strings(j: Json): (r: seq<string>)
    ensures j.JArr? && (forall i :: 0 <= i < |j.items| ==> j.items[i].JStr?) ==> |r| == |j.items|
  {
    match j
    case JArr(xs) => StringsOf(xs)
    case _ => []
  }

  function StringsOf(xs: seq<Json>): (r: seq<string>)
    ensures |r| <= |xs|
    ensures (forall i :: 0 <= i < |xs| ==> xs[i].JStr?) ==> |r| == |xs|
    ensures forall s :: s in r <==> JStr(s) in xs
  {
    if xs == [] then []
    else (if xs[0].JStr? then [xs[0].s] else []) + StringsOf(xs[1..])
  }

  /** Python's `xs[:n]`: the first `n` elements, or all but the last `-n` for
      negative `n`. */
  function Take<T>(xs: seq<T>, n: int): (r: seq<T>)
    ensures r <= xs
    ensures n >= 0 ==> |r| == if n < |xs| then n else |xs|
    ensures n < 0 ==> |r| == if |xs| + n > 0 then |xs| + n else 0
  {
    if n >= 0 then (if n < |xs| then xs[..n] else xs)
    else (if |xs| + n > 0 then xs[..|xs| + n] else [])
  }
}
