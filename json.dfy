/** The JSON values a manifest holds, with Python's dictionary operations on
    them. Objects keep their key order, as `json.dump` writes a dict in
    insertion order. */
module Json {
  import opened Wrappers

  /** A JSON value; `JObj` is an ordered list of key/value pairs. */
  datatype J = JStr(s: string) | JInt(n: int) | JList(items: seq<J>) | JObj(fields: seq<(string, J)>)

  /** The keys of an object. */
  function Keys(kvs: seq<(string, J)>): set<string> {
    if kvs == [] then {} else {kvs[0].0} + Keys(kvs[1..])
  }

  /** `d.get(k)`. Every object the model builds or stores is a dict, so a
      key occurs at most once and the first occurrence is the only one. */
  function Get(kvs: seq<(string, J)>, k: string): (r: Option<J>)
    ensures r.Some? <==> k in Keys(kvs)
  {
    if kvs == [] then None
    else if kvs[0].0 == k then Some(kvs[0].1)
    else Get(kvs[1..], k)
  }

  /** `d[k] = v`: an existing key keeps its place and takes the new value;
      a new key goes last. */
  function Put(kvs: seq<(string, J)>, k: string, v: J): (r: seq<(string, J)>)
    ensures Keys(r) == Keys(kvs) + {k}
  {
    if kvs == [] then [(k, v)]
    else if kvs[0].0 == k then [(k, v)] + kvs[1..]
    else [kvs[0]] + Put(kvs[1..], k, v)
  }

  /** After `d[k] = v`, `d.get(k)` is `v` and no other key changed. */
  lemma {:induction false} GetPut(kvs: seq<(string, J)>, k: string, v: J)
    ensures Get(Put(kvs, k, v), k) == Some(v)
    ensures forall k' :: k' != k ==> Get(Put(kvs, k, v), k') == Get(kvs, k')
  {
    if kvs != [] {
      var r := Put(kvs, k, v);
      if kvs[0].0 == k {
        assert r[1..] == kvs[1..];
      } else {
        GetPut(kvs[1..], k, v);
        assert r[1..] == Put(kvs[1..], k, v);
      }
    }
  }

  /** A key that first occurs at `i` is found there. */
  lemma {:induction false} GetSuffix(kvs: seq<(string, J)>, i: nat, k: string)
    requires i < |kvs| && kvs[i].0 == k && forall j :: 0 <= j < i ==> kvs[j].0 != k
    ensures Get(kvs, k) == Some(kvs[i].1)
  {
    if i > 0 {
      GetSuffix(kvs[1..], i - 1, k);
    }
  }

  /** Assigning a key twice keeps only the second value. */
  lemma {:induction false} PutPut(kvs: seq<(string, J)>, k: string, v: J, w: J)
    ensures Put(Put(kvs, k, v), k, w) == Put(kvs, k, w)
  {
    if kvs != [] && kvs[0].0 != k {
      PutPut(kvs[1..], k, v, w);
      assert Put(kvs, k, v)[1..] == Put(kvs[1..], k, v);
    }
  }

  /** Assigning a key the value it already has changes nothing. */
  lemma {:induction false} PutSame(kvs: seq<(string, J)>, k: string, v: J)
    requires Get(kvs, k) == Some(v)
    ensures Put(kvs, k, v) == kvs
  {
    if kvs[0].0 == k {
      assert [(k, v)] + kvs[1..] == kvs;
    } else {
      PutSame(kvs[1..], k, v);
      assert [kvs[0]] + kvs[1..] == kvs;
    }
  }

  /** `doc[p0][p1]…`: the value at a path of keys through nested objects. */
  function At(j: J, path: seq<string>): Option<J>
    decreases |path|
  {
    if path == [] then Some(j)
    else if !j.JObj? then None
    else
      match Get(j.fields, path[0])
      case None => None
      case Some(v) => At(v, path[1..])
  }

  /** Python truthiness: empty strings, zero and empty containers are false. */
  predicate Truthy(j: J) {
    match j
    case JStr(s) => s != ""
    case JInt(n) => n != 0
    case JList(items) => items != []
    case JObj(fields) => fields != []
  }

  /** `any(d.values())`. */
  predicate AnyTruthy(kvs: seq<(string, J)>) {
    exists i :: 0 <= i < |kvs| && Truthy(kvs[i].1)
  }

  /** A list of JSON strings. */
  function Strs(xs: seq<string>): (r: seq<J>)
    ensures |r| == |xs| && forall i :: 0 <= i < |xs| ==> r[i] == JStr(xs[i])
  {
    seq(|xs|, i requires 0 <= i < |xs| => JStr(xs[i]))
  }
}
