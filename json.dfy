/** Decoded JSON values, as `jwt.decode` hands back a token's claims, and Python's
    membership test `x in v` on them for a string `x`. */
module JsonValues {
  import opened AuthResults
  import Text

  /** A decoded JSON value. Numbers are integers only. */
  datatype Json =
    | JNull
    | JBool(b: bool)
    | JNumber(n: int)
    | JString(s: string)
    | JArray(items: seq<Json>)
    | JObject(members: map<string, Json>)

  /** The claims of a decoded token: a JSON object. */
  type Payload = map<string, Json>

  /** Python's `x in v` for a string `x`: element equality on a list, substring
      occurrence on a string, key membership on an object, and a `TypeError` for
      null, booleans and numbers. */
  function PyIn(x: string, v: Json): (r: Outcome<bool>)
    ensures !r.Fail?
    ensures r.Raise? <==> v.JNull? || v.JBool? || v.JNumber?
    ensures r.Raise? ==> r.exception == TypeError
  {
    match v
    case JArray(items) => Ok(JString(x) in items)
    case JString(s) => Ok(Text.OccursIn(x, s))
    case JObject(members) => Ok(x in members)
    case _ => Raise(TypeError)
  }

  /** A list of strings as a JSON array. */
  function Strings(xs: seq<string>): (v: Json)
    ensures v.JArray? && |v.items| == |xs|
    ensures forall i :: 0 <= i < |xs| ==> v.items[i] == JString(xs[i])
  {
    JArray(seq(|xs|, i requires 0 <= i < |xs| => JString(xs[i])))
  }

  /** On a JSON array of strings, `in` is membership in the list of strings. */
  lemma InStrings(x: string, xs: seq<string>)
    ensures PyIn(x, Strings(xs)) == Ok(x in xs)
  {
    var items := Strings(xs).items;
    if x in xs {
      var i :| 0 <= i < |xs| && xs[i] == x;
      assert items[i] == JString(x);
    }
    if JString(x) in items {
      var i :| 0 <= i < |items| && items[i] == JString(x);
      assert xs[i] == x;
    }
  }
}
