/** The JSON-like tree the engine works on: Go's `interface{}` values as produced by
    `encoding/json` or written in a suite file, with `map[string]interface{}` (the
    package's `M`) as an association list whose order is the map's iteration order. */
module Json {
  import opened Wrappers
  import opened GoStrings

  datatype Value =
    | Null                    // nil
    | Bool(b: bool)           // bool
    | Int(i: Int64)           // the signed integer kinds (int, int8 … int64)
    | Float(f: real)          // float64, and any other non-integer number
    | Str(s: string)          // string
    | Obj(fields: Fields)     // map[string]interface{}
    | Arr(items: seq<Value>)  // []interface{}

  /** A Go map, listed in iteration order. */
  type Fields = seq<(string, Value)>

  function Keys(m: Fields): (ks: seq<string>)
    ensures |ks| == |m| && forall i :: 0 <= i < |m| ==> ks[i] == m[i].0
  {
    if |m| == 0 then [] else [m[0].0] + Keys(m[1..])
  }

  /** `m[k]` with its `ok`: the value stored under `k`. */
  function Find(m: Fields, k: string): (r: Option<Value>)
    ensures r.None? <==> k !in Keys(m)
  {
    if |m| == 0 then None
    else if m[0].0 == k then Some(m[0].1)
    else
      Find(m[1..], k)
  }

  /** `m[k] = v`: the entry for `k` is overwritten where it stands, or added at the end. */
  function Put(m: Fields, k: string, v: Value): (r: Fields)
    ensures Find(r, k) == Some(v)
  {
    if |m| == 0 then [(k, v)]
    else if m[0].0 == k then [(k, v)] + m[1..]
    else
      var rest := Put(m[1..], k, v);
      var r := [m[0]] + rest;
      assert r[1..] == rest;
      r
  }

  /** Writing `k` leaves every other key's value as it was. */
  lemma {:induction false} PutOther(m: Fields, k: string, v: Value, k': string)
    requires k' != k
    ensures Find(Put(m, k, v), k') == Find(m, k')
  {
    if |m| > 0 && m[0].0 != k {
      PutOther(m[1..], k, v, k');
      assert Put(m, k, v)[1..] == Put(m[1..], k, v);
    }
  }

  /** Writing an existing key keeps the key order; a new key goes last. */
  lemma {:induction false} PutKeys(m: Fields, k: string, v: Value)
    ensures Keys(Put(m, k, v)) == if k in Keys(m) then Keys(m) else Keys(m) + [k]
  {
    if |m| > 0 && m[0].0 != k {
      PutKeys(m[1..], k, v);
      var r := Put(m, k, v);
      assert r[1..] == Put(m[1..], k, v);
      assert Keys(r) == [m[0].0] + Keys(Put(m[1..], k, v));
      assert Keys(m) == [m[0].0] + Keys(m[1..]);
      assert k in Keys(m) <==> k in Keys(m[1..]);
    }
  }

  /** Go's `%T` rendering of a value's dynamic type, as it appears in error messages. */
  function TypeName(v: Value): (r: string)
    ensures r == "map[string]interface {}" <==> v.Obj?
    ensures r == "[]interface {}" <==> v.Arr?
    ensures r == "<nil>" <==> v.Null?
  {
    match v
    case Null => "<nil>"
    case Bool(_) => "bool"
    case Int(_) => "int"
    case Float(_) => "float64"
    case Str(_) => "string"
    case Obj(_) => "map[string]interface {}"
    case Arr(_) => "[]interface {}"
  }
}
