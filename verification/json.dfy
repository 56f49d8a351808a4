/**
 * The parsed xcresulttool output: a JSON tree as `json.loads` hands it to the
 * core (floats left out), with the Python operations the core applies to it.
 */
module Json {
  import opened Wrappers

  datatype Json =
    | JNull
    | JBool(b: bool)
    | JInt(i: int)
    | JString(s: string)
    | JArray(items: seq<Json>)
    | JObject(members: seq<Member>)

  /** One key/value pair of an object, in document order. */
  datatype Member = Member(key: string, value: Json)

  /**
   * Why a step of the core does not produce a value: Python raised a
   * TypeError while iterating a number or `True`, or a value the core uses as
   * text (a name, an identifier, a file name) is not a string.
   */
  datatype Fault = NotIterable | NotText(key: string)

  /** Python truthiness: `bool(v)`. */
  predicate Truthy(v: Json) {
    match v
    case JNull => false
    case JBool(b) => b
    case JInt(i) => i != 0
    case JString(s) => s != ""
    case JArray(items) => items != []
    case JObject(members) => members != []
  }

  /** `a or b` */
  function Or(a: Json, b: Json): (r: Json)
    ensures Truthy(a) ==> r == a
    ensures !Truthy(a) ==> r == b
  {
    if Truthy(a) then a else b
  }

  /**
   * `a or b` is truthy exactly when one of the two is, so a chain of `or`
   * falls through to its last value only when every value before it is falsy.
   */
  lemma OrTruthy(a: Json, b: Json)
    ensures Truthy(Or(a, b)) <==> Truthy(a) || Truthy(b)
    ensures !Truthy(Or(a, b)) ==> Or(a, b) == b
  {
  }

  /** `key in d` */
  predicate HasKey(members: seq<Member>, key: string) {
    exists i | 0 <= i < |members| :: members[i].key == key
  }

  /** `d[key]` when present: the value of the first member with that key. */
  function Get(members: seq<Member>, key: string): (r: Option<Json>)
    ensures r.Some? <==> HasKey(members, key)
    ensures r.Some? ==> exists i | 0 <= i < |members| :: members[i] == Member(key, r.value)
  {
    if members == [] then None
    else if members[0].key == key then Some(members[0].value)
    else
      var r := Get(members[1..], key);
      assert forall i | 0 <= i < |members| - 1 :: members[1..][i] == members[i + 1];
      r
  }

  /** `d.get(key, default)` */
  function GetOr(members: seq<Member>, key: string, default: Json): Json {
    match Get(members, key)
    case Some(v) => v
    case None => default
  }

  /** `d.get(key)`, whose default is None. */
  function GetOrNull(members: seq<Member>, key: string): Json {
    GetOr(members, key, JNull)
  }

  /**
   * `for x in v`: a list yields its items, a string its one-character
   * strings, a dict its keys; numbers, booleans and None raise TypeError.
   */
  function Iterate(v: Json): (r: Result<seq<Json>, Fault>)
    ensures r.Ok? <==> (v.JArray? || v.JString? || v.JObject?)
    ensures v.JArray? ==> r == Ok(v.items)
    ensures r.Ok? && !v.JArray? ==> forall x | x in r.value :: x.JString?
  {
    match v
    case JArray(items) => Ok(items)
    case JString(s) => Ok(seq(|s|, i requires 0 <= i < |s| => JString([s[i]])))
    case JObject(members) => Ok(seq(|members|, i requires 0 <= i < |members| => JString(members[i].key)))
    case _ => Err(NotIterable)
  }

  /** The text of a value that is a string; "" for any other value. */
  function TextOrEmpty(v: Json): string {
    if v.JString? then v.s else ""
  }

  /** The text of a value the core uses as a string; any other value is a fault. */
  function Text(v: Json, key: string): (r: Result<string, Fault>)
    ensures r.Ok? <==> v.JString?
    ensures r.Ok? ==> r.value == v.s
  {
    if v.JString? then Ok(v.s) else Err(NotText(key))
  }
}
