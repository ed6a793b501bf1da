/**
 * The JSON documents that serde_json builds (`serde_json::Value`), reduced to the
 * shapes the term query can contain. Numbers that come from floats are kept as
 * their opaque bit patterns: the model never inspects them.
 */
module Json {
  import opened Wrappers

  /** A 32-bit float, identified by its bit pattern and never interpreted. */
  datatype F32 = F32(bits: bv32)

  /** A 64-bit float, identified by its bit pattern and never interpreted. */
  datatype F64 = F64(bits: bv64)

  /**
   * An object keeps its members in insertion order, which is serde_json's `Map`
   * with its `preserve_order` feature; equality here is order-sensitive, which
   * serde_json's `Value` equality is not.
   */
  datatype Json =
    | JNull
    | JBool(b: bool)
    | JInt(i: int)
    | JFloat32(f32: F32)
    | JFloat64(f64: F64)
    | JString(s: string)
    | JObject(members: seq<(string, Json)>)

  /** The keys of an object, in order; a value that is not an object has none. */
  function Keys(j: Json): (ks: seq<string>)
    ensures j.JObject? ==> |ks| == |j.members|
    ensures j.JObject? ==> forall k :: 0 <= k < |ks| ==> ks[k] == j.members[k].0
    ensures !j.JObject? ==> ks == []
  {
    if j.JObject? then MemberKeys(j.members) else []
  }

  function MemberKeys(members: seq<(string, Json)>): (ks: seq<string>)
    ensures |ks| == |members|
    ensures forall k :: 0 <= k < |ks| ==> ks[k] == members[k].0
  {
    if members == [] then [] else [members[0].0] + MemberKeys(members[1..])
  }

  /** The value stored under `key` in an object (the first one, should a key repeat). */
  function Lookup(j: Json, key: string): (r: Option<Json>)
    ensures r.Some? <==> j.JObject? && key in Keys(j)
  {
    if j.JObject? then LookupMember(j.members, key) else None
  }

  function LookupMember(members: seq<(string, Json)>, key: string): (r: Option<Json>)
    ensures r.Some? <==> key in MemberKeys(members)
    ensures r.Some? ==> (key, r.value) in members
  {
    if members == [] then None
    else if members[0].0 == key then Some(members[0].1)
    else LookupMember(members[1..], key)
  }
}
