/** The parsed form of a JSON document, as `json.loads` hands it to the code:
    objects keep the order of their keys, as Python dictionaries do. */
module Json {
  import opened Wrappers

  datatype Json =
    | JString(str: string)
    | JNumber(num: int)
    | JBool(truth: bool)
    | JNull
    | JArray(items: seq<Json>)
    | JObject(members: seq<(string, Json)>)

  function Keys(members: seq<(string, Json)>): (keys: seq<string>)
    ensures |keys| == |members|
    ensures forall i :: 0 <= i < |members| ==> keys[i] == members[i].0
  {
    if members == [] then [] else [members[0].0] + Keys(members[1..])
  }

  /** `d[key]` on a dictionary: the value stored under `key`, if any. */
  function Lookup(members: seq<(string, Json)>, key: string): (r: Option<Json>)
    ensures r.Some? <==> key in Keys(members)
    ensures r.Some? ==> exists i :: 0 <= i < |members| && members[i] == (key, r.value)
    ensures r.Some? ==> r.value < JObject(members)
  {
    if members == [] then None
    else if members[0].0 == key then Some(members[0].1)
    else
      var r := Lookup(members[1..], key);
      assert r.Some? ==> r.value < JObject(members[1..]);
      r
  }

  /** The index of `key`, for the in-place updates of `dict.pop`. */
  function IndexOf(members: seq<(string, Json)>, key: string): (r: Option<nat>)
    ensures r.Some? <==> key in Keys(members)
    ensures r.Some? ==> r.value < |members| && members[r.value].0 == key
    ensures r.Some? ==> forall j :: 0 <= j < r.value ==> members[j].0 != key
  {
    if members == [] then None
    else if members[0].0 == key then Some(0)
    else match IndexOf(members[1..], key)
      case None => None
      case Some(i) => Some(i + 1)
  }

  /** Python truthiness of a JSON value. */
  predicate Truthy(j: Json)
  {
    match j
    case JString(s) => s != ""
    case JNumber(n) => n != 0
    case JBool(b) => b
    case JNull => false
    case JArray(items) => items != []
    case JObject(members) => members != []
  }
}
