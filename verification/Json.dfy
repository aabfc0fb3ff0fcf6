/** Decoded JSON with Python's reading of it: truth value, number test, `x or {}`. */
module Json {
  import opened Basics

  datatype Json =
    | Null
    | Bool(b: bool)
    | Num(n: real)
    | Str(s: string)
    | Arr(items: seq<Json>)
    | Obj(fields: map<string, Json>)

  type Dict = map<string, Json>

  /** `d.get(k)`: a missing key reads as null. */
  function Get(d: Dict, k: string): Json { if k in d then d[k] else Null }

  predicate Truthy(j: Json): (b: bool)
    ensures !b <==> j in {Null, Bool(false), Num(0.0), Str(""), Arr([]), Obj(map[])}
  {
    match j
    case Null => false
    case Bool(b) => b
    case Num(n) => n != 0.0
    case Str(s) => s != ""
    case Arr(items) => items != []
    case Obj(fields) => fields != map[]
  }

  /** A value that takes part in comparisons; booleans are numbers in Python. */
  function AsNum(j: Json): (n: Option<real>)
    ensures n.Some? <==> j.Num? || j.Bool?
    ensures n.Some? ==> j in {Num(n.value), Bool(n.value == 1.0)} && (j.Bool? ==> n.value in {0.0, 1.0})
  {
    match j
    case Num(n) => Some(n)
    case Bool(b) => Some(if b then 1.0 else 0.0)
    case _ => None
  }

  /** `j or {}` followed by a `.get`: None where Python raises AttributeError. */
  function OrEmpty(j: Json): (d: Option<Dict>)
    ensures d.None? <==> !j.Obj? && Truthy(j)
    ensures d.Some? ==> j == Obj(d.value) || (!Truthy(j) && d.value == map[])
  {
    if j.Obj? then Some(j.fields) else if Truthy(j) then None else Some(map[])
  }
}
