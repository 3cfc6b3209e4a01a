/** JSON-shaped values, and Python's insertion-ordered `dict` with string keys. */
module JsonValue {
  import opened Common

  /**
   * A value `json.load` can produce (and `json.dump` can write). Objects keep
   * their members in insertion order, as Python dicts do.
   */
  datatype Json =
    | JNull
    | JBool(b: bool)
    | JInt(i: int)
    | JFloat(f: real)
    | JStr(s: string)
    | JArray(items: seq<Json>)
    | JObject(members: Dict)

  /** An insertion-ordered dict: the members in the order their keys were first set. */
  type Dict = seq<(string, Json)>

  function Keys(d: Dict): (ks: seq<string>)
    ensures |ks| == |d| && forall i :: 0 <= i < |d| ==> ks[i] == d[i].0
  {
    if d == [] then [] else [d[0].0] + Keys(d[1..])
  }

  predicate DistinctKeys(d: Dict) {
    forall i, j :: 0 <= i < j < |d| ==> d[i].0 != d[j].0
  }

  /** `d.get(k)`: the value stored under `k`, if any. */
  function Get(d: Dict, k: string): (r: Option<Json>)
    ensures r.None? <==> k !in Keys(d)
  {
    if d == [] then None
    else if d[0].0 == k then Some(d[0].1)
    else
      assert Keys(d) == [d[0].0] + Keys(d[1..]);
      Get(d[1..], k)
  }

  /**
   * `d[k] = v`: an existing key keeps its position and takes the new value;
   * a new key is appended.
   */
  function Put(d: Dict, k: string, v: Json): Dict {
    if d == [] then [(k, v)]
    else if d[0].0 == k then [(k, v)] + d[1..]
    else [d[0]] + Put(d[1..], k, v)
  }

  /** Setting a key changes the key order only by appending a key that was new. */
  lemma {:induction false} PutKeys(d: Dict, k: string, v: Json)
    ensures Keys(Put(d, k, v)) == if k in Keys(d) then Keys(d) else Keys(d) + [k]
  {
    if d != [] {
      assert Keys(d) == [d[0].0] + Keys(d[1..]);
      if d[0].0 != k {
        PutKeys(d[1..], k, v);
        assert Keys(Put(d, k, v)) == [d[0].0] + Keys(Put(d[1..], k, v));
      } else {
        assert Keys(Put(d, k, v)) == [k] + Keys(d[1..]);
      }
    }
  }

  /** After `d[k] = v`, reading `k` gives `v` and every other key reads as before. */
  lemma {:induction false} PutGet(d: Dict, k: string, v: Json, k': string)
    ensures Get(Put(d, k, v), k') == if k' == k then Some(v) else Get(d, k')
  {
    if d != [] && d[0].0 != k {
      PutGet(d[1..], k, v, k');
    }
  }

  /** Setting a key keeps the keys of a dict distinct. */
  lemma {:induction false} PutDistinct(d: Dict, k: string, v: Json)
    requires DistinctKeys(d)
    ensures DistinctKeys(Put(d, k, v))
  {
    PutKeys(d, k, v);
    var p := Put(d, k, v);
    forall i, j | 0 <= i < j < |p| ensures p[i].0 != p[j].0 {
      assert Keys(p)[i] == p[i].0 && Keys(p)[j] == p[j].0;
      assert Keys(d)[..] == Keys(d);
      if k in Keys(d) {
        assert Keys(p)[i] == d[i].0 && Keys(p)[j] == d[j].0;
      } else if j < |d| {
        assert Keys(p)[i] == d[i].0 && Keys(p)[j] == d[j].0;
      } else {
        assert Keys(p)[i] == Keys(d)[i];
      }
    }
  }
}
