/**
 * The values converter.js reads out of the parsed YAML document, with the
 * JavaScript notions it relies on: truthiness, property lookup, and the order
 * in which Object.keys lists an object's keys.
 */
module Values {
  import opened Casing

  datatype Option<T> = None | Some(value: T)

  /**
   * A value of the parsed document. An object keeps its keys in declaration
   * order, which is the order Object.keys reports for keys that are not array
   * indices.
   */
  datatype Json =
    | Null
    | Bool(b: bool)
    | Num(n: int)
    | Str(s: string)
    | Arr(items: seq<Json>)
    | Obj(fields: seq<(string, Json)>)

  /** JavaScript truthiness of a property read; None stands for `undefined`. */
  predicate Truthy(v: Option<Json>)
  {
    match v
    case None => false
    case Some(Null) => false
    case Some(Bool(b)) => b
    case Some(Num(n)) => n != 0
    case Some(Str(s)) => s != ""
    case Some(Arr(_)) => true
    case Some(Obj(_)) => true
  }

  /** `obj[key]`: the value stored under `key`, or `undefined`. */
  function Get(fields: seq<(string, Json)>, key: string): (v: Option<Json>)
    ensures v.Some? <==> exists i :: 0 <= i < |fields| && fields[i].0 == key
    ensures v.Some? ==> exists i :: 0 <= i < |fields| && fields[i] == (key, v.value)
  {
    if fields == [] then None
    else if fields[0].0 == key then Some(fields[0].1)
    else Get(fields[1..], key)
  }

  predicate DistinctKeys(fields: seq<(string, Json)>)
  {
    forall i, j :: 0 <= i < j < |fields| ==> fields[i].0 != fields[j].0
  }

  /** The number a string of decimal digits spells. */
  function DecimalValue(k: string): int
  {
    if k == [] then 0 else DecimalValue(k[..|k| - 1]) * 10 + (k[|k| - 1] as int - '0' as int)
  }

  /**
   * A canonical array index ("0", "7", "42", but not "007" nor "4294967295"):
   * Object.keys lists such keys first, in numeric order, ahead of every other
   * key. An array index is below 2^32 - 1.
   */
  predicate IsIndexKey(k: string)
  {
    && k != []
    && (forall c :: c in k ==> IsDigit(c))
    && (k == "0" || k[0] != '0')
    && DecimalValue(k) < 0xFFFF_FFFF
  }

  predicate Distinct(keys: seq<string>)
  {
    forall i, j :: 0 <= i < j < |keys| ==> keys[i] != keys[j]
  }
}
