/**
 * The part of QCborValue / QCborArray behaviour the table code relies on:
 * reading an element past the end yields Undefined, converting a non-array to
 * an array yields an empty array, and the integer and double accessors fall
 * back to a default.
 */
module Cbor {

  datatype Value =
    | Undefined
    | Null
    | Bool(b: bool)
    | Integer(i: int)
    | Double(d: real)
    | Text(s: string)
    | Array(items: seq<Value>)

  /** QCborValue::toArray(): the elements of an array value, otherwise an empty array. */
  function ToArray(v: Value): (r: seq<Value>)
    ensures v.Array? ==> r == v.items
    ensures !v.Array? ==> r == []
  {
    if v.Array? then v.items else []
  }

  /** QCborArray::at(i) and the const operator[]: Undefined when i is out of range. */
  function At(a: seq<Value>, i: int): (r: Value)
    ensures 0 <= i < |a| ==> r == a[i]
    ensures !(0 <= i < |a|) ==> r == Undefined
  {
    if 0 <= i < |a| then a[i] else Undefined
  }

  /** C++ conversion of a double to an integer: truncation toward zero. */
  function Truncate(d: real): (r: int)
    ensures d >= 0.0 ==> r as real <= d < r as real + 1.0
    ensures d < 0.0 ==> r as real - 1.0 < d <= r as real
  {
    if d >= 0.0 then d.Floor else -((-d).Floor)
  }

  /** QCborValue::toInteger(default): integers as they are, doubles truncated, else the default. */
  function ToInteger(v: Value, default: int): int {
    match v
    case Integer(i) => i
    case Double(d) => Truncate(d)
    case _ => default
  }

  /** QCborValue::toDouble(default): doubles as they are, integers converted, else the default. */
  function ToDouble(v: Value, default: real): real {
    match v
    case Double(d) => d
    case Integer(i) => i as real
    case _ => default
  }
}
