/**
 * The JavaScript values the pipeline moves around without inspecting them,
 * and plain JavaScript objects as ordered key/value lists.
 */
module Json {

  /** A JSON leaf value as stored in a fundamental column. Numbers and dates are
      never computed on, so they are kept opaque. */
  datatype Value = Null | Bool(b: bool) | Num(n: real) | Text(s: string)

  /** No key occurs twice: what a JavaScript object guarantees of its entries. */
  predicate DistinctKeys<V>(entries: seq<(string, V)>)
  {
    forall i, j :: 0 <= i < j < |entries| ==> entries[i].0 != entries[j].0
  }

  /** A plain JavaScript object, as `Object.entries` lists it: key/value pairs in
      insertion order, each key once. */
  type JsObject<V> = entries: seq<(string, V)> | DistinctKeys(entries) witness []

  /** The set of keys of an object. */
  function Keys<V>(entries: seq<(string, V)>): set<string>
  {
    set i | 0 <= i < |entries| :: entries[i].0
  }

  /** Both parts of an object's entry list have distinct keys. */
  lemma DistinctParts<V>(a: seq<(string, V)>, b: seq<(string, V)>)
    requires DistinctKeys(a + b)
    ensures DistinctKeys(a) && DistinctKeys(b)
  {
    assert forall i :: 0 <= i < |a| ==> a[i] == (a + b)[i];
    assert forall i :: 0 <= i < |b| ==> b[i] == (a + b)[|a| + i];
  }

  /** The keys of a non-empty list: its first key and the keys of the rest. */
  lemma KeysCons<V>(entries: seq<(string, V)>)
    requires entries != []
    ensures Keys(entries) == {entries[0].0} + Keys(entries[1..])
  {
    forall k | k in Keys(entries) ensures k in {entries[0].0} + Keys(entries[1..]) {
      var i :| 0 <= i < |entries| && entries[i].0 == k;
      if i > 0 {
        assert entries[1..][i - 1] == entries[i];
      }
    }
    forall k | k in Keys(entries[1..]) ensures k in Keys(entries) {
      var i :| 0 <= i < |entries[1..]| && entries[1..][i].0 == k;
      assert entries[i + 1] == entries[1..][i];
    }
  }

  /** The fundamental payload object of one quote entry: field name to value. */
  type Payload = map<string, Value>

  /** `payload.field ?? null`: an absent or null field reads as null. */
  function Coalesce(payload: Payload, field: string): (v: Value)
    ensures v != Null ==> field in payload && payload[field] == v
    ensures field in payload ==> v == payload[field]
  {
    if field in payload then payload[field] else Null
  }
}
