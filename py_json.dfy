/**
 * The Python values the export script walks: what `json.load` returns, and
 * the dynamic errors Python raises when the script subscripts, iterates or
 * tests membership on a value of the wrong kind.
 */
module PyJson {
  import opened Wrappers
  import Text
  import opened PyDict

  /**
   * A loaded JSON value. Numbers keep their literal (the script never looks
   * at them); an object is a dict whose items keep document order, with
   * distinct keys as `json.load` produces them.
   */
  datatype Json =
    | JNull
    | JBool(b: bool)
    | JNum(literal: string)
    | JStr(s: string)
    | JArr(items: seq<Json>)
    | JObj(entries: Dict<string, Json>)

  /** The exceptions the script's expressions can raise. */
  datatype PyError = TypeError | AttributeError | KeyError

  /** `v[key]` with a string key: a dict lookup, `KeyError` when absent, `TypeError` on anything else. */
  function Subscript(v: Json, key: string): (r: Result<Json, PyError>)
    ensures r.Ok? <==> v.JObj? && key in Keys(v.entries)
    ensures r.Ok? ==> (key, r.value) in v.entries
    ensures r.Err? ==> r.error == if v.JObj? then KeyError else TypeError
  {
    match v
    case JObj(entries) =>
      (match Lookup(entries, key)
       case Some(x) => Ok(x)
       case None => Err(KeyError))
    case _ => Err(TypeError)
  }

  /** `v.get(key)`: only a dict has `get`; a missing key gives `None`. */
  function Get(v: Json, key: string): (r: Result<Option<Json>, PyError>)
    ensures r.Err? <==> !v.JObj?
    ensures r.Err? ==> r.error == AttributeError
    ensures r.Ok? ==> (r.value.Some? <==> key in Keys(v.entries))
    ensures r.Ok? && r.value.Some? ==> (key, r.value.value) in v.entries
  {
    match v
    case JObj(entries) => Ok(Lookup(entries, key))
    case _ => Err(AttributeError)
  }

  /**
   * `for x in v`: a list yields its items, a dict its keys and a string its
   * one-character strings; anything else is not iterable.
   */
  function Iterate(v: Json): (r: Result<seq<Json>, PyError>)
    ensures r.Err? <==> v.JNull? || v.JBool? || v.JNum?
    ensures r.Err? ==> r.error == TypeError
    ensures v.JObj? ==> r.Ok? && |r.value| == |v.entries|
  {
    match v
    case JArr(items) => Ok(items)
    case JObj(entries) => Ok(seq(|entries|, i requires 0 <= i < |entries| => JStr(entries[i].0)))
    case JStr(s) => Ok(seq(|s|, i requires 0 <= i < |s| => JStr([s[i]])))
    case _ => Err(TypeError)
  }

  /**
   * `key in v` for a string `key`: dict key membership, list element
   * equality, substring search in a string; `TypeError` on anything else.
   */
  function In(key: string, v: Json): (r: Result<bool, PyError>)
    ensures r.Err? <==> v.JNull? || v.JBool? || v.JNum?
    ensures r.Err? ==> r.error == TypeError
  {
    match v
    case JObj(entries) => Ok(key in Keys(entries))
    case JArr(items) => Ok(JStr(key) in items)
    case JStr(s) => Ok(Text.Contains(s, key))
    case _ => Err(TypeError)
  }

  /**
   * A membership test that succeeds guards the subscript after it: on a dict
   * the subscript then finds the key, and on a list or string it raises
   * `TypeError`; it never raises `KeyError`.
   */
  lemma InGuardsSubscript(key: string, v: Json)
    requires In(key, v) == Ok(true)
    ensures Subscript(v, key).Ok? <==> v.JObj?
    ensures Subscript(v, key) != Err(KeyError)
  {
    if v.JObj? {
      assert Lookup(v.entries, key).Some?;
    }
  }
}
