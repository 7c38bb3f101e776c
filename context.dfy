/** The execution context of src/exec/context.rs: the value stack with its
    parallel stack of frame sizes, the global symbol table, the tables of
    user-defined operators, and unary operator resolution and dispatch. */
module Exec {
  import opened Outcomes
  import opened Values
  import Exprs
  import UnaryBuiltins

  /** A user-defined operator (`exec::function::Function`). Only the number
      of locals matters to the context. */
  datatype Function = Function(
    isBinary: bool,
    name: string,
    left: string,
    right: string,
    body: seq<Exprs.Expr>,
    locals: seq<string>,
    globals: seq<string>)

  /** One entry of the time-ordered list of definitions. */
  datatype OpDef = OpDef(name: string, isBinary: bool)

  /** What `Context::unary` resolves an operator name to. */
  datatype UnaryOp = UserUnary(fun: Function) | BuiltinUnary(builtin: UnaryBuiltins.UnaryBuiltin)

  /** `reduce` is a `todo!()` stub. */
  function Reduce(op: string, right: Value): Outcome<Value> {
    Err(Unimplemented("reduce"))
  }

  /** `scan` is a `todo!()` stub. */
  function Scan(op: string, right: Value): Outcome<Value> {
    Err(Unimplemented("scan"))
  }

  /** Applying a resolved unary operator: user functions are a `todo!()`
      stub, builtins are evaluated. */
  function ApplyUnary(f: UnaryOp, right: Value): Outcome<Value> {
    match f
    case UserUnary(_) => Err(Unimplemented("user-defined unary operator"))
    case BuiltinUnary(b) => UnaryBuiltins.Apply(b, right)
  }

  const UNWRAP_NONE: string := "called `Option::unwrap()` on a `None` value"

  /** `Context::unary` over the table of user-defined unary operators: a
      user definition wins over a builtin of the same name. */
  function ResolveUnary(userUnary: map<string, Function>, op: string): (r: Option<UnaryOp>)
    ensures op in userUnary ==> r == Some(UserUnary(userUnary[op]))
    ensures op !in userUnary ==> (r.Some? <==> op in UnaryBuiltins.UNARY_NAMES)
    ensures op !in userUnary && r.Some? ==> r.value.BuiltinUnary? && UnaryBuiltins.Name(r.value.builtin) == op
  {
    if op in userUnary then Some(UserUnary(userUnary[op]))
    else match UnaryBuiltins.FromStr(op)
      case Some(b) => Some(BuiltinUnary(b))
      case None => None
  }

  /** Whether `op` is a reduction (`f/`) or scan (`f\`) name: longer than
      one character and ending in the suffix. */
  predicate HasSuffix(op: string, suffix: char) {
    |op| > 1 && op[|op| - 1] == suffix
  }

  /** `Context::eval_unary` over the table of user-defined unary operators. */
  function EvalUnaryWith(userUnary: map<string, Function>, op: string, right: Value): (r: Outcome<Value>)
    ensures HasSuffix(op, '/') ==> r == Reduce(op[..|op| - 1], right)
    ensures HasSuffix(op, '\\') ==> r == Scan(op[..|op| - 1], right)
    ensures !HasSuffix(op, '/') && !HasSuffix(op, '\\') ==>
              r == match ResolveUnary(userUnary, op)
                   case Some(f) => ApplyUnary(f, right)
                   case None => Err(Panic(UNWRAP_NONE))
  {
    var l := |op|;
    if l > 1 && op[l - 1] == '/' then Reduce(op[..l - 1], right)
    else if l > 1 && op[l - 1] == '\\' then Scan(op[..l - 1], right)
    else
      var fun := ResolveUnary(userUnary, op);
      if fun.None? then Err(Panic(UNWRAP_NONE)) else ApplyUnary(fun.value, right)
  }

  /** The lone character "/" is not a reduction: it is looked up as a unary
      operator, and unless the user defined one the lookup fails. */
  lemma SlashAloneIsLookedUp(userUnary: map<string, Function>, right: Value)
    ensures "/" !in userUnary ==> EvalUnaryWith(userUnary, "/", right) == Err(Panic(UNWRAP_NONE))
    ensures "/" in userUnary ==> EvalUnaryWith(userUnary, "/", right) == ApplyUnary(UserUnary(userUnary["/"]), right)
  {
  }

  /** A user-defined operator shadows the builtin of the same name. */
  lemma UserDefinitionShadowsBuiltin(userUnary: map<string, Function>, b: UnaryBuiltins.UnaryBuiltin, right: Value)
    requires UnaryBuiltins.Name(b) in userUnary
    ensures EvalUnaryWith(userUnary, UnaryBuiltins.Name(b), right) == Err(Unimplemented("user-defined unary operator"))
  {
  }

  /** A builtin name with no user definition evaluates the builtin. */
  lemma BuiltinDispatch(userUnary: map<string, Function>, b: UnaryBuiltins.UnaryBuiltin, right: Value)
    requires UnaryBuiltins.Name(b) !in userUnary
    ensures EvalUnaryWith(userUnary, UnaryBuiltins.Name(b), right) == UnaryBuiltins.Apply(b, right)
  {
    UnaryBuiltins.FromStrName(b);
  }

  /** `Context::eval`: evaluate each expression in order; the first failure
      aborts the whole list. */
  function EvalAll(exprs: seq<Exprs.Expr>, evalUnary: Exprs.UnaryEval, evalBinary: Exprs.BinaryEval): (r: Outcome<seq<Value>>)
    ensures r.Ok? ==> |r.value| == |exprs|
    ensures r.Ok? && exprs != [] ==> Exprs.Eval(exprs[0], evalUnary, evalBinary) == Ok(r.value[0])
    decreases |exprs|
  {
    if exprs == [] then Ok([])
    else
      var v :- Exprs.Eval(exprs[0], evalUnary, evalBinary);
      var rest :- EvalAll(exprs[1..], evalUnary, evalBinary);
      Ok([v] + rest)
  }

  /** `eval` yields one value per expression, in order, exactly when every
      expression evaluates; otherwise it reports the first failure. */
  lemma {:induction false} EvalAllInOrder(exprs: seq<Exprs.Expr>, evalUnary: Exprs.UnaryEval, evalBinary: Exprs.BinaryEval)
    ensures var r := EvalAll(exprs, evalUnary, evalBinary);
            r.Ok? <==> forall k :: 0 <= k < |exprs| ==> Exprs.Eval(exprs[k], evalUnary, evalBinary).Ok?
    ensures var r := EvalAll(exprs, evalUnary, evalBinary);
            r.Ok? ==> |r.value| == |exprs| &&
                      forall k :: 0 <= k < |exprs| ==> Exprs.Eval(exprs[k], evalUnary, evalBinary) == Ok(r.value[k])
    ensures var r := EvalAll(exprs, evalUnary, evalBinary);
            r.Err? ==> exists k :: 0 <= k < |exprs| && Exprs.Eval(exprs[k], evalUnary, evalBinary) == Err(r.fault) &&
                                   forall j :: 0 <= j < k ==> Exprs.Eval(exprs[j], evalUnary, evalBinary).Ok?
    decreases |exprs|
  {
    if exprs != [] {
      var tail := exprs[1..];
      EvalAllInOrder(tail, evalUnary, evalBinary);
      assert forall k :: 1 <= k < |exprs| ==> exprs[k] == tail[k - 1];
      var r := EvalAll(exprs, evalUnary, evalBinary);
      var head := Exprs.Eval(exprs[0], evalUnary, evalBinary);
      if head.Ok? && r.Err? {
        var t := EvalAll(tail, evalUnary, evalBinary);
        var k :| 0 <= k < |tail| && Exprs.Eval(tail[k], evalUnary, evalBinary) == Err(t.fault) &&
                 forall j :: 0 <= j < k ==> Exprs.Eval(tail[j], evalUnary, evalBinary).Ok?;
        assert Exprs.Eval(exprs[k + 1], evalUnary, evalBinary) == Err(r.fault);
        assert forall j :: 0 <= j < k + 1 ==> Exprs.Eval(exprs[j], evalUnary, evalBinary).Ok? by {
          forall j | 0 <= j < k + 1 ensures Exprs.Eval(exprs[j], evalUnary, evalBinary).Ok? {
            if j > 0 { assert exprs[j] == tail[j - 1]; }
          }
        }
      }
    }
  }

  /** The value stack and the parallel stack of frame sizes. */
  datatype CallStack = CallStack(frameSizes: seq<nat>, stack: seq<Value>)

  /** `n` fresh slots holding `Value::default()`. */
  function Slots(n: nat): (s: seq<Value>)
    ensures |s| == n && forall k :: 0 <= k < n ==> s[k] == DEFAULT
  {
    seq(n, _ => DEFAULT)
  }

  /** Sum of the frame sizes. */
  function Total(sizes: seq<nat>): nat {
    if sizes == [] then 0 else sizes[0] + Total(sizes[1..])
  }

  /** The stack holds exactly the slots of its frames. */
  predicate Balanced(cs: CallStack) {
    Total(cs.frameSizes) == |cs.stack|
  }

  /** `Context::push` of a function with `n` locals. */
  function PushFrame(cs: CallStack, n: nat): CallStack {
    CallStack(cs.frameSizes + [n], cs.stack + Slots(n))
  }

  /** `Vec::pop`, which leaves an empty vector alone. */
  function DropLast<T>(s: seq<T>): seq<T> {
    if s == [] then s else s[..|s| - 1]
  }

  /** `Context::pop` as written: one frame size and ONE stack slot go,
      whatever the size of the frame. */
  function PopAsWritten(cs: CallStack): CallStack {
    CallStack(DropLast(cs.frameSizes), DropLast(cs.stack))
  }

  /** `pop` as evidently intended: the top frame's slots go with its size. */
  function PopFrame(cs: CallStack): CallStack {
    if cs.frameSizes == [] then cs
    else
      var n := cs.frameSizes[|cs.frameSizes| - 1];
      var keep := if n <= |cs.stack| then |cs.stack| - n else 0;
      CallStack(cs.frameSizes[..|cs.frameSizes| - 1], cs.stack[..keep])
  }

  lemma {:induction false} TotalAppend(sizes: seq<nat>, n: nat)
    ensures Total(sizes + [n]) == Total(sizes) + n
    decreases |sizes|
  {
    if sizes != [] {
      assert (sizes + [n])[1..] == sizes[1..] + [n];
      TotalAppend(sizes[1..], n);
    }
  }

  /** `push` keeps the stack balanced against its frame sizes. */
  lemma PushKeepsBalance(cs: CallStack, n: nat)
    requires Balanced(cs)
    ensures Balanced(PushFrame(cs, n))
  {
    TotalAppend(cs.frameSizes, n);
  }

  /** Push then pop as written restores the frame sizes, but restores the
      stack length only when the frame had exactly one local (or had none
      and the stack was empty, where `Vec::pop` does nothing). */
  lemma PushThenPopAsWritten(cs: CallStack, n: nat)
    ensures PopAsWritten(PushFrame(cs, n)).frameSizes == cs.frameSizes
    ensures |PopAsWritten(PushFrame(cs, n)).stack| == |cs.stack| <==> n == 1 || (n == 0 && cs.stack == [])
  {
    assert (cs.frameSizes + [n])[..|cs.frameSizes|] == cs.frameSizes;
  }

  /** As written, popping any frame not of size one breaks the balance. */
  lemma PopAsWrittenUnbalances(cs: CallStack, n: nat)
    requires Balanced(cs) && n != 1 && (n != 0 || cs.stack != [])
    ensures !Balanced(PopAsWritten(PushFrame(cs, n)))
  {
    PushThenPopAsWritten(cs, n);
  }

  /** Concretely: a call of a two-local function on an empty context leaves
      one slot behind. */
  lemma TwoLocalFrameLeavesSlot()
    ensures PopAsWritten(PushFrame(CallStack([], []), 2)) == CallStack([], [DEFAULT])
  {
    assert Slots(2) == [DEFAULT, DEFAULT];
  }

  /** The intended pop undoes push exactly. */
  lemma PopFrameUndoesPush(cs: CallStack, n: nat)
    ensures PopFrame(PushFrame(cs, n)) == cs
  {
    assert (cs.frameSizes + [n])[..|cs.frameSizes|] == cs.frameSizes;
    assert (cs.stack + Slots(n))[..|cs.stack|] == cs.stack;
  }

  /** The intended pop keeps the stack balanced. */
  lemma PopFrameKeepsBalance(cs: CallStack)
    requires Balanced(cs)
    ensures Balanced(PopFrame(cs))
  {
    if cs.frameSizes != [] {
      var rest := cs.frameSizes[..|cs.frameSizes| - 1];
      var n := cs.frameSizes[|cs.frameSizes| - 1];
      assert cs.frameSizes == rest + [n];
      TotalAppend(rest, n);
    }
  }

  class Context {
    /** size of each stack frame on the call stack */
    var frameSizes: seq<nat>
    var stack: seq<Value>
    var globals: map<string, Value>
    /** user-defined unary operators by name */
    var unaryFn: map<string, Function>
    /** user-defined binary operators by name */
    var binaryFn: map<string, Function>
    /** defined operators, in time order */
    var defs: seq<OpDef>
    /** names declared in the function being parsed */
    var variables: seq<string>

    function Frames(): CallStack
      reads this
    {
      CallStack(frameSizes, stack)
    }

    /** `Context::new`: every table and stack starts empty. */
    constructor ()
      ensures frameSizes == [] && stack == [] && globals == map[]
      ensures unaryFn == map[] && binaryFn == map[] && defs == [] && variables == []
      ensures Balanced(Frames())
    {
      frameSizes := [];
      stack := [];
      globals := map[];
      unaryFn := map[];
      binaryFn := map[];
      defs := [];
      variables := [];
    }

    /** `Context::global`. */
    function Global(name: string): (r: Option<Value>)
      reads this
      ensures r.Some? <==> name in globals
      ensures r.Some? ==> r.value == globals[name]
    {
      if name in globals then Some(globals[name]) else None
    }

    /** `Context::local`: local `i` counts back from the top of the stack. */
    function Local(i: nat): (v: Value)
      reads this
      requires 1 <= i <= |stack|
      ensures v == stack[|stack| - i]
    {
      stack[|stack| - i]
    }

    /** `Context::assign_local`: only slot `len - i` changes. */
    method AssignLocal(i: nat, value: Value)
      requires 1 <= i <= |stack|
      modifies this`stack
      ensures |stack| == old(|stack|)
      ensures Local(i) == value
      ensures forall j :: 1 <= j <= |stack| && j != i ==> Local(j) == old(Local(j))
    {
      var l := |stack|;
      stack := stack[l - i := value];
    }

    /** `Context::assign_global`: binds `name` and leaves every other global. */
    method AssignGlobal(name: string, value: Value)
      modifies this`globals
      ensures globals == old(globals)[name := value]
      ensures Global(name) == Some(value)
      ensures forall other :: other != name ==> Global(other) == old(Global(other))
    {
      globals := globals[name := value];
    }

    /** `Context::set_constants`: binds exactly "e" and "pi" to the double
        constants. */
    method SetConstants()
      modifies this`globals
      ensures globals.Keys == old(globals.Keys) + {"e", "pi"}
      ensures Global("e") == Some(Float(Bits(E_BITS))) && Global("pi") == Some(Float(Bits(PI_BITS)))
      ensures forall other :: other != "e" && other != "pi" ==> Global(other) == old(Global(other))
    {
      AssignGlobal("e", Float(Bits(E_BITS)));
      AssignGlobal("pi", Float(Bits(PI_BITS)));
    }

    /** `Context::push`: a new frame of `fun.locals` fresh slots. */
    method Push(fun: Function)
      modifies this`frameSizes, this`stack
      ensures Frames() == PushFrame(old(Frames()), |fun.locals|)
      ensures forall j :: 1 <= j <= |fun.locals| ==> Local(j) == DEFAULT
      ensures forall j :: 1 <= j <= old(|stack|) ==> Local(j + |fun.locals|) == old(Local(j))
    {
      var n := |stack|;
      var lfun := |fun.locals|;
      frameSizes := frameSizes + [lfun];
      stack := stack + Slots(lfun);
      assert |stack| == n + lfun;
    }

    /** `Context::pop` as written: drops the last frame size and one slot. */
    method Pop()
      modifies this`frameSizes, this`stack
      ensures Frames() == PopAsWritten(old(Frames()))
    {
      if frameSizes != [] {
        frameSizes := frameSizes[..|frameSizes| - 1];
      }
      if stack != [] {
        stack := stack[..|stack| - 1];
      }
    }

    /** `pop` as evidently intended: drops the last frame with all its slots. */
    method PopFrameIntended()
      modifies this`frameSizes, this`stack
      ensures Frames() == PopFrame(old(Frames()))
      ensures old(Balanced(Frames())) ==> Balanced(Frames())
    {
      if Balanced(Frames()) {
        PopFrameKeepsBalance(Frames());
      }
      if frameSizes != [] {
        var n := frameSizes[|frameSizes| - 1];
        frameSizes := frameSizes[..|frameSizes| - 1];
        stack := stack[..if n <= |stack| then |stack| - n else 0];
      }
    }

    /** `Context::unary`. */
    function Unary(op: string): (r: Option<UnaryOp>)
      reads this
      ensures op in unaryFn ==> r == Some(UserUnary(unaryFn[op]))
      ensures op !in unaryFn ==> (r.Some? <==> op in UnaryBuiltins.UNARY_NAMES)
      ensures op !in unaryFn && r.Some? ==> r.value.BuiltinUnary? && UnaryBuiltins.Name(r.value.builtin) == op
    {
      ResolveUnary(unaryFn, op)
    }

    /** `Context::eval_unary`. */
    function EvalUnary(op: string, right: Value): Outcome<Value>
      reads this
    {
      EvalUnaryWith(unaryFn, op, right)
    }

    /** `Context::eval`; the context has no `eval_binary` of its own, so the
        binary evaluator is supplied by the caller. */
    function Eval(exprs: seq<Exprs.Expr>, evalBinary: Exprs.BinaryEval): Outcome<seq<Value>>
      reads this
    {
      var user := unaryFn;
      EvalAll(exprs, (op, v) => EvalUnaryWith(user, op, v), evalBinary)
    }
  }
}
