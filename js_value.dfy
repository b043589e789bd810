/**
 * Database rows as the portal's JavaScript sees them: a record of named
 * columns, each null, a boolean, a number, or a string. A column that is
 * absent reads as `undefined`, which every rule here treats like null.
 */
module JsValue {
  import opened Wrappers
  import JsText
  import JsNumber

  datatype Value = Null | Bool(b: bool) | Num(n: real) | Str(s: string)

  type Row = map<string, Value>

  /** `row[key]`, with an absent column read as null. */
  function Get(row: Row, key: string): (v: Value)
    ensures key !in row ==> v == Null
  {
    if key in row then row[key] else Null
  }

  /** JavaScript truthiness (NaN is not a value of this model). */
  predicate Truthy(v: Value) {
    match v
    case Null => false
    case Bool(b) => b
    case Num(n) => n != 0.0
    case Str(s) => s != []
  }

  /** Column `keys[i]` is truthy and every column before it is falsy. */
  predicate FirstTruthyAt(row: Row, keys: seq<string>, i: int) {
    0 <= i < |keys| && Truthy(Get(row, keys[i])) &&
    forall j :: 0 <= j < i ==> !Truthy(Get(row, keys[j]))
  }

  /**
   * `row[k0] || row[k1] || ... || fallback`: the first truthy column among
   * `keys`, or `fallback` when none is truthy.
   */
  function FirstTruthy(row: Row, keys: seq<string>, fallback: Value): (v: Value)
    ensures (forall i :: 0 <= i < |keys| ==> !Truthy(Get(row, keys[i]))) ==> v == fallback
    ensures forall i :: FirstTruthyAt(row, keys, i) ==> v == Get(row, keys[i])
  {
    if keys == [] then fallback
    else if Truthy(Get(row, keys[0])) then Get(row, keys[0])
    else
      var v := FirstTruthy(row, keys[1..], fallback);
      assert forall i :: FirstTruthyAt(row, keys, i) ==> v == Get(row, keys[i]) by {
        forall i | FirstTruthyAt(row, keys, i) ensures v == Get(row, keys[i]) {
          assert i > 0;
          assert keys[i] == keys[1..][i - 1];
          forall j | 0 <= j < i - 1 ensures !Truthy(Get(row, keys[1..][j])) {
            assert keys[1..][j] == keys[j + 1];
          }
          assert FirstTruthyAt(row, keys[1..], i - 1);
        }
      }
      v
  }

  /** The text of a string column, "" for anything else. */
  function Text(v: Value): (s: string)
    ensures v.Str? ==> s == v.s
    ensures !v.Str? ==> s == []
  {
    if v.Str? then v.s else []
  }

  /** `parseFloat(v)`: a number is itself, a string is parsed, anything else is NaN. */
  function ParseValue(v: Value): (r: Option<real>)
    ensures v.Num? ==> r == Some(v.n)
    ensures v.Str? ==> r == JsNumber.ParseFloat(v.s)
    ensures v.Null? || v.Bool? ==> r.None?
  {
    match v
    case Num(n) => Some(n)
    case Str(s) => JsNumber.ParseFloat(s)
    case _ => None
  }

  /** `x.toLowerCase() === target` for a column that must be a non-empty string. */
  predicate LowerIs(v: Value, target: string) {
    v.Str? && v.s != [] && JsText.Lower(v.s) == target
  }
}
