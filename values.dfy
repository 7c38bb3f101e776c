/** The calculator's tagged value union, as matched by
    src/value/eval/unary.rs: Float, Int, Complex, Rational, Char and the
    default "no value" (`Value::None`, here `Absent`). */
module Values {

  const MIN_I32: int := -0x8000_0000
  const MAX_I32: int := 0x7FFF_FFFF

  /** The 32-bit signed integer held by `Value::Int` (src/value.rs:4). */
  type i32 = x: int | MIN_I32 <= x <= MAX_I32

  /** A double-precision number, kept symbolic: a literal bit pattern or the
      square root of another double. Floating-point arithmetic itself is not
      modelled. */
  datatype Real = Bits(bits: bv64) | SqrtOf(arg: Real)

  /** A complex number, kept symbolic: built by `Value::complex` from two
      values, or the complex arc cosine of another complex number. */
  datatype ComplexNum = Of(re: Value, im: Value) | AcosOf(arg: ComplexNum)

  datatype Value =
    | Float(f: Real)
    | Int(i: i32)
    | Complex(z: ComplexNum)
    | Rational(num: i32, den: i32)
    | Char(c: char)
    | Absent

  /** IEEE-754 bit patterns of the constants `std::f64::consts::E` and
      `std::f64::consts::PI`. */
  const E_BITS: bv64 := 0x4005_BF0A_8B14_5769
  const PI_BITS: bv64 := 0x4009_21FB_5444_2D18

  /** `Value::default()`, the filler of fresh stack slots. */
  const DEFAULT: Value := Absent
}
