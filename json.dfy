/**
 * The payload tree: the nested PHP array that the builder returns and that the
 * transport serialises to JSON. Keyed levels are ordered sequences of
 * (key, value) pairs, because an exact comparison of two such arrays depends
 * on key order.
 */
module Json {
  import opened Wrappers

  datatype Value =
    | Str(str: string)
    | Bool(flag: bool)
    | List(items: seq<Value>)
    | Obj(fields: Fields)

  type Fields = seq<(string, Value)>

  /** The keys of a keyed level, in order. */
  function Keys(fields: Fields): seq<string>
  {
    seq(|fields|, i requires 0 <= i < |fields| => fields[i].0)
  }

  /** The value stored under `key` (the first such pair), if the key is present. */
  function Get(fields: Fields, key: string): (r: Option<Value>)
    ensures r.Some? ==> (key, r.value) in fields
    ensures r.None? ==> forall i :: 0 <= i < |fields| ==> fields[i].0 != key
  {
    if fields == [] then None
    else if fields[0].0 == key then Some(fields[0].1)
    else Get(fields[1..], key)
  }

  /** A list of strings as a tree value. */
  function Strings(xs: seq<string>): (r: Value)
    ensures r.List? && |r.items| == |xs|
    ensures forall i :: 0 <= i < |xs| ==> r.items[i] == Str(xs[i])
  {
    List(seq(|xs|, i requires 0 <= i < |xs| => Str(xs[i])))
  }

  lemma KeysAppend(a: Fields, b: Fields)
    ensures Keys(a + b) == Keys(a) + Keys(b)
  {
  }
}
