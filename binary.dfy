/** The builtin binary operator table of src/value/eval/binary.rs, which so
    far holds only `+`. */
module BinaryBuiltins {
  import opened Outcomes

  datatype BinaryBuiltin = Plus

  /** `BinaryBuiltin::from_str`; `None` is the `ParseBuiltinError`. */
  function FromStr(s: string): (r: Option<BinaryBuiltin>)
    ensures r.Some? <==> s == "+"
  {
    if s == "+" then Some(Plus) else None
  }

  /** `is_binary_op`: whether `s` names a builtin binary operator. */
  predicate IsBinaryOp(s: string)
    ensures IsBinaryOp(s) <==> s == "+"
  {
    FromStr(s).Some?
  }
}
