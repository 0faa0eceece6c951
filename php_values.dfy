/**
 * The part of PHP's value model that the shape validators inspect: scalars,
 * `null`, and arrays as ordered sequences of key/value entries.
 */
module PhpValues {

  /** An array key. PHP turns numeric-string keys into integers, so a `StrKey` is a non-numeric string. */
  datatype Key = IntKey(n: int) | StrKey(s: string)

  datatype Value =
    | Int(i: int)
    | Float(f: real)
    | Str(s: string)
    | Bool(b: bool)
    | Null
    | Arr(entries: seq<(Key, Value)>)

  /** `is_int($c) || is_float($c)`. */
  predicate IsNumber(v: Value) {
    v.Int? || v.Float?
  }

  /** `array_is_list`: the keys are 0, 1, 2, ... in iteration order. */
  predicate IsList(entries: seq<(Key, Value)>) {
    forall p :: 0 <= p < |entries| ==> entries[p].0 == IntKey(p)
  }

  /** A foreach scan over the components that stops at the first one that is not a number. */
  function AllNumbers(entries: seq<(Key, Value)>): (r: bool)
    ensures r <==> forall p :: 0 <= p < |entries| ==> IsNumber(entries[p].1)
  {
    if entries == [] then true
    else if !IsNumber(entries[0].1) then false
    else AllNumbers(entries[1..])
  }

  /** The PHP list `[x0, x1, ...]` of floats holding the given numbers. */
  function FromReals(s: seq<real>): (v: Value)
    ensures v.Arr? && |v.entries| == |s| && IsList(v.entries)
    ensures forall p :: 0 <= p < |s| ==> v.entries[p].1 == Float(s[p])
  {
    Arr(seq(|s|, p requires 0 <= p < |s| => (IntKey(p), Float(s[p]))))
  }

  /** The PHP list of lists holding the rows of a dense matrix. */
  function FromRows(rows: seq<seq<real>>): (v: Value)
    ensures v.Arr? && |v.entries| == |rows| && IsList(v.entries)
    ensures forall p :: 0 <= p < |rows| ==> v.entries[p].1 == FromReals(rows[p])
  {
    Arr(seq(|rows|, p requires 0 <= p < |rows| => (IntKey(p), FromReals(rows[p]))))
  }
}
