/** The builtin unary operators of src/value/eval/unary.rs: the table from
    operator names to builtins, and the evaluation of `sqrt`, `char` and
    `code` on the value union. */
module UnaryBuiltins {
  import opened Outcomes
  import opened Values

  datatype UnaryBuiltin = Roll | Sqrt | Acos | Char | Code

  /** The operator names of the builtin table. */
  const UNARY_NAMES: set<string> := {"?", "sqrt", "acos", "char", "code"}

  /** The name under which each builtin is registered. */
  function Name(b: UnaryBuiltin): (s: string)
    ensures s in UNARY_NAMES
  {
    match b
    case Roll => "?"
    case Sqrt => "sqrt"
    case Acos => "acos"
    case Char => "char"
    case Code => "code"
  }

  /** `UnaryBuiltin::from_str`; `None` is the `ParseBuiltinError`. */
  function FromStr(s: string): (r: Option<UnaryBuiltin>)
    ensures r.Some? <==> s in UNARY_NAMES
    ensures r.Some? ==> Name(r.value) == s
  {
    match s
    case "?" => Some(Roll)
    case "sqrt" => Some(Sqrt)
    case "acos" => Some(Acos)
    case "char" => Some(UnaryBuiltin.Char)
    case "code" => Some(Code)
    case _ => None
  }

  /** Every builtin is found again under its own name. */
  lemma FromStrName(b: UnaryBuiltin)
    ensures FromStr(Name(b)) == Some(b)
  {
  }

  /** `is_unary_op`: whether `from_str` succeeds. */
  predicate IsUnaryOp(s: string)
    ensures IsUnaryOp(s) <==> s in UNARY_NAMES
  {
    FromStr(s).Some?
  }

  /** The integer square root, rounded down (`Roots::sqrt` of the `num`
      crate on a non-negative integer). */
  function Isqrt(n: nat): (r: nat)
    ensures r * r <= n < (r + 1) * (r + 1)
    ensures r <= n
    decreases n
  {
    if n < 2 then n
    else
      var h := Isqrt(n / 4);
      IsqrtStep(n, h);
      if (2 * h + 1) * (2 * h + 1) <= n then 2 * h + 1 else 2 * h
  }

  /** Doubling the root of `n / 4` brackets the root of `n`. */
  lemma IsqrtStep(n: nat, h: nat)
    requires h * h <= n / 4 < (h + 1) * (h + 1)
    ensures (2 * h) * (2 * h) <= n < (2 * h + 2) * (2 * h + 2)
  {
    var q := n / 4;
    assert 4 * q <= n < 4 * q + 4;
    assert (2 * h) * (2 * h) == 4 * (h * h);
    assert (2 * h + 2) * (2 * h + 2) == 4 * ((h + 1) * (h + 1));
  }

  /** Whether `n` is a Unicode scalar value, i.e. `char::from_u32(n)` succeeds. */
  predicate IsScalarValue(n: int) {
    0 <= n < 0xD800 || 0xE000 <= n < 0x11_0000
  }

  /** `UnaryBuiltin::eval_unary` applied to `right`. It succeeds only for
      `sqrt` of a Float or of an Int other than the most negative one, `acos`
      of a Complex, `char` of a Char or of an Int that is a Unicode scalar
      value, and `code` of a Char; `?` (roll) is never implemented. */
  function Apply(op: UnaryBuiltin, right: Value): (r: Outcome<Value>)
    ensures r.Ok? ==>
              (op == Sqrt && (right.Float? || (right.Int? && right.i != MIN_I32))) ||
              (op == Acos && right.Complex?) ||
              (op == UnaryBuiltin.Char && (right.Char? || (right.Int? && IsScalarValue(right.i)))) ||
              (op == Code && right.Char?)
    ensures op == Roll ==> r.Err? && r.fault.Unimplemented?
  {
    match op
    case Sqrt =>
      (match right
       case Float(f) => Ok(Float(SqrtOf(f)))
       case Int(f) =>
         if f >= 0 then Ok(Int(Isqrt(f)))
         else if f == MIN_I32 then Err(Panic("attempt to negate with overflow"))
         else Ok(Complex(Of(Int(0), Int(Isqrt(-f)))))
       case Complex(_) => Err(Unimplemented("sqrt of a complex value"))
       case Rational(_, _) => Err(Unimplemented("sqrt of a rational value"))
       case Absent => Err(Unimplemented("sqrt of no value"))
       case Char(_) => Err(Unimplemented("sqrt of a char")))
    case Roll => Err(Unimplemented("roll"))
    case Acos =>
      (match right
       case Complex(z) => Ok(Complex(AcosOf(z)))
       case _ => Err(Unimplemented("acos of a non-complex value")))
    case Char =>
      (match right
       case Char(c) => Ok(right)
       case Int(c) =>
         if c < 0 then Err(Panic("integer does not fit in u32"))
         else if !IsScalarValue(c) then Err(Panic("not a Unicode scalar value"))
         else Ok(Value.Char(c as char))
       case _ => Err(Panic("char called with a value that is neither Char nor Int")))
    case Code =>
      (match right
       case Char(c) => Ok(Int((c as int) % 256))
       case _ => Err(Panic("code called with a value that is not a Char")))
  }

  /** `sqrt` of a non-negative Int is the Int floor square root. */
  lemma SqrtOfNonNegativeInt(f: i32)
    requires f >= 0
    ensures Apply(Sqrt, Int(f)).Ok? && Apply(Sqrt, Int(f)).value.Int?
    ensures var r := Apply(Sqrt, Int(f)).value.i; r >= 0 && r * r <= f < (r + 1) * (r + 1)
  {
  }

  /** `sqrt` of a negative Int is the complex number with real part Int(0)
      and imaginary part the floor square root of the magnitude; the most
      negative Int, -2147483648, overflows in `abs` and panics. */
  lemma SqrtOfNegativeInt(f: i32)
    requires f < 0
    ensures f == MIN_I32 ==> Apply(Sqrt, Int(f)).Err? && Apply(Sqrt, Int(f)).fault.Panic?
    ensures f != MIN_I32 ==> exists r: i32 :: r * r <= -f < (r + 1) * (r + 1)
                                           && Apply(Sqrt, Int(f)) == Ok(Complex(Of(Int(0), Int(r))))
  {
    if f != MIN_I32 {
      var r: i32 := Isqrt(-f);
      assert r * r <= -f < (r + 1) * (r + 1);
      assert Apply(Sqrt, Int(f)) == Ok(Complex(Of(Int(0), Int(r))));
    }
  }

  /** `char` leaves a Char unchanged. */
  lemma CharOfChar(c: char)
    ensures Apply(UnaryBuiltin.Char, Value.Char(c)) == Ok(Value.Char(c))
  {
  }

  /** `char` of an Int succeeds exactly on Unicode scalar values, and then
      yields the character with that code point. */
  lemma CharOfInt(n: i32)
    ensures Apply(UnaryBuiltin.Char, Int(n)).Ok? <==> IsScalarValue(n)
    ensures Apply(UnaryBuiltin.Char, Int(n)).Ok? ==>
              Apply(UnaryBuiltin.Char, Int(n)).value.Char? && Apply(UnaryBuiltin.Char, Int(n)).value.c as int == n
  {
  }

  /** `code` yields the low eight bits of the character's code point. */
  lemma CodeOfChar(c: char)
    ensures Apply(Code, Value.Char(c)).Ok?
    ensures var r := Apply(Code, Value.Char(c)).value;
            r.Int? && 0 <= r.i < 256 && r.i % 256 == (c as int) % 256
  {
  }

  /** `code` undoes `char` on every byte value. */
  lemma CodeCharRoundTrip(n: i32)
    requires 0 <= n < 256
    ensures Apply(UnaryBuiltin.Char, Int(n)).Ok?
    ensures Apply(Code, Apply(UnaryBuiltin.Char, Int(n)).value) == Ok(Int(n))
  {
  }

  /** `char` accepts only Char and Int, `code` only Char. */
  lemma CharCodeRejectOthers(v: Value)
    ensures !v.Char? && !v.Int? ==> Apply(UnaryBuiltin.Char, v).Err? && Apply(UnaryBuiltin.Char, v).fault.Panic?
    ensures !v.Char? ==> Apply(Code, v).Err? && Apply(Code, v).fault.Panic?
  {
  }
}
