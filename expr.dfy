/** The expression tree of src/value/context/expr.rs: node constructors,
    `is_nil`, and the implemented fragment of `eval`. The context's
    `eval_unary` and `eval_binary` are parameters of the evaluator. */
module Exprs {
  import opened Outcomes
  import opened Values

  /** The payload of a Binary or Conditional node (the source's `Binary`). */
  datatype BinaryNode = BinaryNode(op: string, left: Expr, right: Expr)

  /** The payload of a Unary node (the source's `Unary`). */
  datatype UnaryNode = UnaryNode(op: string, right: Expr)

  /** The payload of an Index node (the source's `Index`): `right` holds the
      subscripts in order. */
  datatype IndexNode = IndexNode(op: string, left: Expr, right: seq<Expr>)

  datatype Expr =
    | Conditional(binary: BinaryNode)
    | Binary(binary: BinaryNode)
      /** `local` is the local index, 0 for a global. */
    | VariableExpr(name: string, local: nat)
    | Index(index: IndexNode)
    | Unary(unary: UnaryNode)
    | SliceExpr(exprs: seq<Expr>)
    | Value(value: Values.Value)
    | Nil

  /** The context operations the evaluator calls. */
  type UnaryEval = (string, Values.Value) -> Outcome<Values.Value>
  type BinaryEval = (Values.Value, string, Values.Value) -> Outcome<Values.Value>

  /** `From<Value> for Expr`. */
  function FromValue(v: Values.Value): (e: Expr)
    ensures e.Value? && e.value == v
  {
    Value(v)
  }

  /** `Expr::binary`. */
  function NewBinary(op: string, left: Expr, right: Expr): (e: Expr)
    ensures e.Binary? && e.binary.op == op && e.binary.left == left && e.binary.right == right
  {
    Binary(BinaryNode(op, left, right))
  }

  /** `Expr::conditional`. */
  function NewConditional(op: string, left: Expr, right: Expr): (e: Expr)
    ensures e.Conditional? && e.binary.op == op && e.binary.left == left && e.binary.right == right
  {
    Conditional(BinaryNode(op, left, right))
  }

  /** `Expr::unary`. */
  function NewUnary(op: string, right: Expr): (e: Expr)
    ensures e.Unary? && e.unary.op == op && e.unary.right == right
  {
    Unary(UnaryNode(op, right))
  }

  /** `Expr::index`: the subscripts are kept in the order given. */
  function NewIndex(op: string, left: Expr, right: seq<Expr>): (e: Expr)
    ensures e.Index? && e.index.op == op && e.index.left == left
    ensures |e.index.right| == |right| && forall k :: 0 <= k < |right| ==> e.index.right[k] == right[k]
  {
    Index(IndexNode(op, left, right))
  }

  /** `Expr::is_nil`. */
  predicate IsNil(e: Expr) {
    e.Nil?
  }

  /** No constructor builds the Nil node, and the Binary and Conditional
      constructors never build the same node. */
  lemma ConstructorsAreNotNil(op: string, left: Expr, right: Expr, subs: seq<Expr>, v: Values.Value)
    ensures !IsNil(NewBinary(op, left, right)) && !IsNil(NewConditional(op, left, right))
    ensures !IsNil(NewUnary(op, right)) && !IsNil(NewIndex(op, left, subs)) && !IsNil(FromValue(v))
    ensures IsNil(Nil)
    ensures NewBinary(op, left, right) != NewConditional(op, left, right)
  {
  }

  /** `Expr::eval`. Only Value, Unary and non-assignment Binary nodes are
      implemented, so evaluation succeeds only on trees built entirely from
      them; a Binary node evaluates its right operand first. */
  function Eval(e: Expr, evalUnary: UnaryEval, evalBinary: BinaryEval): (r: Outcome<Values.Value>)
    ensures r.Ok? ==> InFragment(e)
    decreases e
  {
    match e
    case Conditional(_) => Err(Unimplemented("conditional"))
    case Binary(b) =>
      if b.op == "=" then Err(Unimplemented("assignment"))
      else
        var rhs :- Eval(b.right, evalUnary, evalBinary);
        var lhs :- Eval(b.left, evalUnary, evalBinary);
        evalBinary(lhs, b.op, rhs)
    case VariableExpr(_, _) => Err(Unimplemented("variable"))
    case Index(_) => Err(Unimplemented("index"))
    case Unary(u) =>
      var v :- Eval(u.right, evalUnary, evalBinary);
      evalUnary(u.op, v)
    case SliceExpr(_) => Err(Unimplemented("slice"))
    case Value(v) => Ok(v)
    case Nil => Err(Unimplemented("nil"))
  }

  /** The nodes `eval` handles: values, unary nodes and non-assignment
      binary nodes, all the way down. */
  predicate InFragment(e: Expr) {
    match e
    case Value(_) => true
    case Unary(u) => InFragment(u.right)
    case Binary(b) => b.op != "=" && InFragment(b.left) && InFragment(b.right)
    case _ => false
  }

  /** A wrapped value evaluates to itself. */
  lemma EvalFromValue(v: Values.Value, evalUnary: UnaryEval, evalBinary: BinaryEval)
    ensures Eval(FromValue(v), evalUnary, evalBinary) == Ok(v)
  {
  }

  /** A Unary node applies the context's `eval_unary` to its evaluated operand. */
  lemma EvalUnaryNode(op: string, right: Expr, evalUnary: UnaryEval, evalBinary: BinaryEval)
    ensures var r := Eval(right, evalUnary, evalBinary);
            Eval(NewUnary(op, right), evalUnary, evalBinary)
            == if r.Err? then Err(r.fault) else evalUnary(op, r.value)
  {
  }

  /** A non-assignment Binary node applies the context's `eval_binary` to its
      evaluated operands; the right operand is evaluated first, so its
      failure is the one reported when both fail. */
  lemma EvalBinaryNode(op: string, left: Expr, right: Expr, evalUnary: UnaryEval, evalBinary: BinaryEval)
    requires op != "="
    ensures var r := Eval(right, evalUnary, evalBinary);
            var l := Eval(left, evalUnary, evalBinary);
            Eval(NewBinary(op, left, right), evalUnary, evalBinary)
            == if r.Err? then Err(r.fault)
               else if l.Err? then Err(l.fault)
               else evalBinary(l.value, op, r.value)
  {
  }

  /** Every node outside the implemented fragment, and the assignment node,
      reaches a `todo!()`. */
  lemma EvalUnimplemented(e: Expr, evalUnary: UnaryEval, evalBinary: BinaryEval)
    requires !e.Value? && !e.Unary? && !(e.Binary? && e.binary.op != "=")
    ensures Eval(e, evalUnary, evalBinary).Err? && Eval(e, evalUnary, evalBinary).fault.Unimplemented?
  {
  }

  /** When the context's operators never fail, `eval` succeeds on every tree
      of the implemented fragment. */
  lemma {:induction false} EvalTotalOnFragment(e: Expr, evalUnary: UnaryEval, evalBinary: BinaryEval)
    requires forall op, v :: evalUnary(op, v).Ok?
    requires forall l, op, r :: evalBinary(l, op, r).Ok?
    requires InFragment(e)
    ensures Eval(e, evalUnary, evalBinary).Ok?
    decreases e
  {
    match e
    case Unary(u) =>
      EvalTotalOnFragment(u.right, evalUnary, evalBinary);
    case Binary(b) =>
      EvalTotalOnFragment(b.left, evalUnary, evalBinary);
      EvalTotalOnFragment(b.right, evalUnary, evalBinary);
    case Value(_) =>
  }
}
