/** Decoded JSON values, as Python's `json` module hands them to the scripts,
    and the few Python operations the scripts apply to them: `dict.get`,
    truthiness, iteration with `for` and formatting with a width. */
module Json {
  import opened Base

  /** A JSON object keeps its members in document order; `Number` covers both
      Python `int` and `float`. */
  datatype Value =
    | Null
    | Bool(b: bool)
    | Number(n: real)
    | Str(s: string)
    | Array(items: seq<Value>)
    | Object(fields: seq<(string, Value)>)

  /** `d.get(key)` on a decoded object. Decoding keeps the last of several
      members with the same name, so the lookup searches from the back. */
  function Get(fields: seq<(string, Value)>, key: string): (r: Option<Value>)
    ensures r.Some? ==> exists i :: 0 <= i < |fields| && fields[i] == (key, r.value) && forall j :: i < j < |fields| ==> fields[j].0 != key
    ensures r.None? ==> forall i :: 0 <= i < |fields| ==> fields[i].0 != key
  {
    if fields == [] then None
    else if fields[|fields| - 1].0 == key then Some(fields[|fields| - 1].1)
    else Get(fields[..|fields| - 1], key)
  }

  /** `d.get(key, default)`. */
  function GetOr(fields: seq<(string, Value)>, key: string, default: Value): Value
  {
    match Get(fields, key)
    case Some(v) => v
    case None => default
  }

  /** `d.get(key)` on a value the scripts know to be an object; any other
      value has no member. */
  function Member(d: Value, key: string): Option<Value>
  {
    if d.Object? then Get(d.fields, key) else None
  }

  /** Python truthiness: `None`, `False`, zero and empty containers are false. */
  predicate Truthy(v: Value)
  {
    match v
    case Null => false
    case Bool(b) => b
    case Number(n) => n != 0.0
    case Str(s) => s != ""
    case Array(items) => items != []
    case Object(fields) => fields != []
  }

  /** The member names of an object, each once, in the order the decoded
      `dict` iterates them (first occurrence). */
  function DistinctKeys(fields: seq<(string, Value)>): (keys: seq<string>)
    ensures forall i, j :: 0 <= i < j < |keys| ==> keys[i] != keys[j]
    ensures forall k :: k in keys <==> exists i :: 0 <= i < |fields| && fields[i].0 == k
    ensures forall i, j, q :: 0 <= i < j < |keys| && 0 <= q < |fields| && fields[q].0 == keys[j] ==> exists p :: 0 <= p < q && fields[p].0 == keys[i]
  {
    if fields == [] then []
    else
      var init := fields[..|fields| - 1];
      var keys := DistinctKeys(init);
      assert forall i :: 0 <= i < |init| ==> init[i] == fields[i];
      var last := fields[|fields| - 1].0;
      if last in keys then keys
      else
        assert forall q :: 0 <= q < |init| ==> init[q].0 != last;
        assert forall i :: 0 <= i < |keys| ==> keys[i] in keys;
        assert forall i :: 0 <= i < |keys| ==> exists p :: 0 <= p < |init| && init[p].0 == keys[i];
        keys + [last]
  }

  /** What `for x in v` visits: the items of a list, the one-character strings
      of a string, the keys of a dict. `None` means iterating raises
      `TypeError` (null, booleans and numbers are not iterable). */
  function Iterate(v: Value): (r: Option<seq<Value>>)
    ensures r.Some? <==> v.Array? || v.Str? || v.Object?
    ensures v.Array? ==> r == Some(v.items)
    ensures v.Str? ==> r.Some? && |r.value| == |v.s|
    ensures v.Str? ==> forall i :: 0 <= i < |v.s| ==> r.value[i] == Str([v.s[i]])
    ensures v.Object? ==> r.Some? && |r.value| == |DistinctKeys(v.fields)|
    ensures v.Object? ==> forall i :: 0 <= i < |r.value| ==> r.value[i] == Str(DistinctKeys(v.fields)[i])
  {
    match v
    case Array(items) => Some(items)
    case Str(s) => Some(seq(|s|, i requires 0 <= i < |s| => Str([s[i]])))
    case Object(fields) =>
      var keys := DistinctKeys(fields);
      Some(seq(|keys|, i requires 0 <= i < |keys| => Str(keys[i])))
    case _ => None
  }

  /** Whether `f"{v:<40}"` succeeds: strings, numbers and booleans accept a
      width, while `None`, lists and dicts raise `TypeError`. */
  predicate Formattable(v: Value)
  {
    v.Str? || v.Number? || v.Bool?
  }
}
