/** The Python values the configuration code inspects: what a JSON settings file
    loads as (`null`, booleans, integers, floats, strings, lists, objects). A
    dictionary keeps its insertion order; a float is kept as its real value. */
module PyValues {
  import opened Wrappers

  datatype PyValue =
    | PNone
    | PBool(b: bool)
    | PInt(i: int)
    | PFloat(x: real)
    | PStr(s: string)
    | PList(items: seq<PyValue>)
    | PDict(entries: seq<(PyValue, PyValue)>)

  /** `isinstance(v, int)`: a `bool` is an `int` in Python. */
  predicate IsInt(v: PyValue): (b: bool)
    ensures v.PBool? ==> b
    ensures v.PFloat? || v.PStr? || v.PNone? ==> !b
  {
    v.PInt? || v.PBool?
  }

  /** The value stored under the string key `k`, if any. */
  function Field(entries: seq<(PyValue, PyValue)>, k: string): (r: Option<PyValue>)
    ensures r.Some? <==> exists j :: 0 <= j < |entries| && entries[j].0 == PStr(k)
    ensures r.Some? ==> exists j :: 0 <= j < |entries| && entries[j] == (PStr(k), r.value)
  {
    if entries == [] then None
    else if entries[0].0 == PStr(k) then Some(entries[0].1)
    else
      var r := Field(entries[1..], k);
      assert forall j :: 0 < j < |entries| ==> entries[j] == entries[1..][j - 1];
      r
  }

  /** `v[k]` for a string `k`: a missing key of a dictionary is a `KeyError`;
      subscripting anything else with a string is a `TypeError`. */
  function Subscript(v: PyValue, k: string): (r: Result<PyValue, Exception>)
    ensures r.Failure? ==> (r.error == KeyError <==> v.PDict?)
    ensures r.Failure? ==> r.error == KeyError || r.error == TypeError
    ensures v.PDict? ==> (r.Success? <==> Field(v.entries, k).Some?)
  {
    if !v.PDict? then Failure(TypeError)
    else match Field(v.entries, k)
      case None => Failure(KeyError)
      case Some(x) => Success(x)
  }
}
