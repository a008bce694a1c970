/**
 * Decoded JSON as PHP holds it after `json_decode(..., true)`: scalars, lists
 * and associative arrays whose keys keep their insertion order.
 */
module Json {
  import opened Wrappers
  import opened Sorting

  datatype Json =
    | JNull
    | JBool(b: bool)
    | JInt(i: int)
    | JStr(s: string)
    | JList(items: seq<Json>)
    | JMap(fields: seq<(string, Json)>)

  /** The value stored under key `k`, scanning the fields in order. */
  function KeyLookup(fields: seq<(string, Json)>, k: string): (r: Option<Json>)
    ensures r.None? <==> forall i :: 0 <= i < |fields| ==> fields[i].0 != k
    ensures r.Some? ==> exists i :: 0 <= i < |fields| && fields[i] == (k, r.value)
  {
    if fields == [] then None
    else if fields[0].0 == k then Some(fields[0].1)
    else
      var r := KeyLookup(fields[1..], k);
      assert r.Some? ==> exists i :: 1 <= i < |fields| && fields[i] == (k, r.value) by {
        if r.Some? {
          var i :| 0 <= i < |fields[1..]| && fields[1..][i] == (k, r.value);
          assert fields[i + 1] == (k, r.value);
        }
      }
      r
  }

  /** The keys of an associative array, in insertion order. */
  function Keys(fields: seq<(string, Json)>): (r: seq<string>)
    ensures |r| == |fields| && forall i :: 0 <= i < |fields| ==> r[i] == fields[i].0
  {
    seq(|fields|, i requires 0 <= i < |fields| => fields[i].0)
  }

  /** In an array whose keys are distinct, the lookup of the i-th key finds the i-th value. */
  lemma {:induction false} LookupAt(fields: seq<(string, Json)>, i: nat)
    requires NoDuplicates(Keys(fields)) && i < |fields|
    ensures KeyLookup(fields, fields[i].0) == Some(fields[i].1)
  {
    if i > 0 {
      var ks := Keys(fields);
      assert ks[0] != ks[i];
      assert Keys(fields[1..]) == ks[1..];
      LookupAt(fields[1..], i - 1);
    }
  }

  /**
   * PHP's `$j[k] ?? null`: the value under `k` when `j` is an array holding
   * that key, and null otherwise (`??` suppresses the lookup on null and on
   * scalars, and a stored null reads as null).
   */
  function Field(j: Json, k: string): Json
  {
    if j.JMap? then
      match KeyLookup(j.fields, k)
      case Some(v) => v
      case None => JNull
    else JNull
  }

  /** PHP's `isset($j[k])`: the key exists and its value is not null. */
  predicate Isset(j: Json, k: string)
  {
    Field(j, k) != JNull
  }

  /**
   * PHP's `count($v)`: the number of elements of an array. PHP 8 raises a
   * TypeError for any other value, which is None here.
   */
  function Count(j: Json): (r: Option<nat>)
    ensures r.Some? <==> j.JList? || j.JMap?
  {
    match j
    case JList(items) => Some(|items|)
    case JMap(fields) => Some(|fields|)
    case _ => None
  }
}
