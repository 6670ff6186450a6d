/** JSON scalars as Python reads and compares them. */
module PythonValues {

  datatype Json = Null | Int(i: int) | Float(r: real) | Infinite | Bool(b: bool) | Text(s: string)

  /** Booleans are integers. */
  predicate IsInt(v: Json) { v.Int? || v.Bool? }

  predicate IsNumber(v: Json) { IsInt(v) || v.Float? }

  function Num(v: Json): real
    requires IsNumber(v)
  {
    match v
    case Int(i) => i as real
    case Float(r) => r
    case Bool(b) => if b then 1.0 else 0.0
  }

  /** Numbers compare by value, whatever their types. */
  predicate PyEq(a: Json, b: Json) { a == b || (IsNumber(a) && IsNumber(b) && Num(a) == Num(b)) }

  const TWO_TO_128: int := 0x1_0000_0000_0000_0000_0000_0000_0000_0000
  const TWO_TO_512: int := TWO_TO_128 * TWO_TO_128 * TWO_TO_128 * TWO_TO_128

  /** 2^1024 - 2^970, the least integer that float() refuses. */
  const FLOAT_LIMIT: int := TWO_TO_512 * TWO_TO_512 - TWO_TO_512 * TWO_TO_512 / 0x40_0000_0000_0000

  /** A number but no boolean, within the range of floats. */
  predicate IsFinite(v: Json) { v.Float? || (v.Int? && -FLOAT_LIMIT < v.i < FLOAT_LIMIT) }
}
