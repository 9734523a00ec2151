/**
 The dynamically typed values a configuration entry can hold: what Go's
 `interface{}` carries once JSON decoding (or a `SetValue` call) has put a
 value into the store, with the integer widths of a 64-bit platform.
 */
module GoValues {

  const TWO_TO_31: int := 0x8000_0000
  const TWO_TO_32: int := 0x1_0000_0000
  const TWO_TO_63: int := 0x8000_0000_0000_0000
  const TWO_TO_64: int := 0x1_0000_0000_0000_0000

  type GoInt32 = x: int | -TWO_TO_31 <= x < TWO_TO_31
  type GoInt64 = x: int | -TWO_TO_63 <= x < TWO_TO_63
  type GoUint32 = x: int | 0 <= x < TWO_TO_32
  type GoUint64 = x: int | 0 <= x < TWO_TO_64
  /** Go's `int` on a 64-bit platform. */
  type GoInt = GoInt64

  /** IEEE 754 bit patterns; their arithmetic is not interpreted here. */
  type Float32 = bv32
  type Float64 = bv64

  /** A `time.Time` instant; only the library formatter looks inside it. */
  datatype Timestamp = Timestamp(unixNanos: int, zoneOffsetSeconds: int)

  datatype Option<+T> = None | Some(value: T)

  /** A Go `error`, reduced to the text of its `Error()` method. */
  datatype Error = Error(message: string)

  /** Go's `(T, error)` return pair: a value is returned even beside an error. */
  datatype Ret<+T> = Ret(value: T, err: Option<Error>)

  /**
   The dynamic type and value of an `interface{}`. `Nil` is the nil interface,
   which is what a Go map yields for a missing key and what JSON `null`
   decodes to; the two cannot be told apart. `Object` is a
   `map[string]interface{}` (every JSON object decodes to one). `Other` is any
   dynamic type the accessors do not list in their type switches (`int8`,
   `uint`, `[]interface{}`, ...), named by its Go type.
   */
  datatype Value =
    | Str(str: string)
    | Int(i: GoInt)
    | Int32(i32: GoInt32)
    | Int64(i64: GoInt64)
    | Uint32(u32: GoUint32)
    | Uint64(u64: GoUint64)
    | Bool(b: bool)
    | F32(f32: Float32)
    | F64(f64: Float64)
    | Duration(nanos: GoInt64)
    | Time(at: Timestamp)
    | Nil
    | Object(entries: map<string, Value>)
    | Other(goType: string)

  /**
   Go's conversion `int(x)` from any integer type: the two's-complement
   reinterpretation of the low 64 bits, so it never fails and wraps what does
   not fit.
   */
  function ToInt(x: int): (r: GoInt)
    ensures (r - x) % TWO_TO_64 == 0
    ensures -TWO_TO_63 <= x < TWO_TO_63 ==> r == x
  {
    var w := x % TWO_TO_64;
    if w < TWO_TO_63 then w else w - TWO_TO_64
  }
}
