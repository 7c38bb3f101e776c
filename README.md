# algae core in Dafny

A model of the working core of algae, an early Rust port of the ivy APL-style
calculator. Four parts of the program hold real logic, and each is a module
here:

- **Scan** (`scan.dfy`) is the lexer's character machinery from `src/scan.rs`.
  - The byte and word classifiers: `is_digit`, `is_space`, `is_end_of_line`,
    `is_alpha_numeric`, `is_numeral`, `digits_for_base`, `is_all_digits` and
    `is_identifier`.
  - The scanner's cursor over the current line: `word`, `next_inner`,
    `peek`, `peek2`, `backup`, `emit`, `errorf`, `accept` and `accept_run`.
  - The lexer states that run without calling back into `next_token`:
    `Lex::Any` with `fallthrough` and `fallthrough2`, `Lex::Comment`,
    `Lex::RawQuote`, and the word classification that ends
    `Lex::Identifier`, which includes the `op` keyword.
  - Each operation is a member function of the value type `ScanState`, which
    serves as its specification. The class `Scanner` holds the same fields
    and implements each operation as a method that updates them in place,
    with loops for `accept_run`, `Lex::Comment` and `Lex::RawQuote`.
  - Every method is proved to leave the state that its `ScanState` function
    computes. The lemmas and function contracts then state what those
    functions mean.
- **UnaryBuiltins** (`unary.dfy`) and **BinaryBuiltins** (`binary.dfy`) hold
  the builtin operator tables from `src/value/eval/unary.rs` and
  `src/value/eval/binary.rs`.
  - They cover the name tables, `is_unary_op` and `is_binary_op`.
  - They also cover the evaluation of `sqrt`, `char` and `code` on the
    tagged value union.
  - Integer `sqrt` is the exact floor square root.
- **Exprs** (`expr.dfy`) is the expression tree from
  `src/value/context/expr.rs`. It covers the node constructors, `is_nil`, and
  the implemented arms of `eval`.
  - The context's `eval_unary` and `eval_binary` are parameters of the
    evaluator.
- **Exec** (`context.dfy`) is the execution context from
  `src/exec/context.rs`.
  - It holds the value stack with its parallel stack of frame sizes, the
    global table, and the user operator tables.
  - It covers local and global access and `push`/`pop`.
  - It covers unary operator resolution and the `eval_unary` dispatch to
    `reduce`, `scan` or the resolved operator.

Shared definitions live in two small modules:

- **Values** (`values.dfy`) is the value union.
- **Outcomes** (`outcomes.dfy`) holds `Option` and a result type.

The result type keeps failures as values:

- A `todo!()` becomes `Unimplemented(what)`.
- A panic becomes `Panic(message)`, for example an `unwrap` on `None`, an
  overflow, or an explicit `panic!`.
- In the scanner, a panic ends the state run as `Step.Panics(message)`.

This keeps every dispatch decision observable.

Several behaviours of the code shape the model:

- **Signs.** A '+' or '-' read in `Lex::Any` always leads to the operator state
  (`Scan.SignIsOperator`). The number-sign tests in `Lex::Any` only decide
  whether to return early. When they do not return, `fallthrough2` calls
  `is_operator`, which accepts both signs.
- **Assignment.** An Assign token is emitted only when '=' is directly
  followed by a second '=', and its text is the first '=' alone. A lone '='
  re-enters the scanner (`Scan.AssignOnlyBeforeEquals`).
- **Integer width.** `Value::Int` is the 32-bit integer that
  `src/value.rs:4` declares. So `sqrt` of the most negative Int,
  -2147483648, overflows in `f.abs()` and panics.
- **Value variants.** `src/value.rs:2-7` lists only three variants, while
  `src/value/eval/unary.rs` matches six. The model uses the six-variant
  union. No width is declared for Rational in these files, so it gets the
  same 32-bit fields.
- **Binary evaluation.** `Context` has no `eval_binary` of its own (it is
  called at `src/value/context/expr.rs:108`). The binary evaluator is
  therefore a parameter of `Exec.Context.Eval`.
- **Unary builtin lookup.** `unary_ops` (called at `src/exec/context.rs:139`)
  is defined outside the files modelled here. It is modelled as the name
  table of `UnaryBuiltin::from_str`.

Where the source calls `next_token()` recursively to advance one character,
the model stops and reports `Step.Reenters`. These are:

- the lone '=' in `fallthrough`;
- `!=`, `>>`, `>=`, `<<`, `<=` and `**` in `is_operator`, whose decision is
  `Scan.OperatorStart`.

## Model

| member | source | states |
|---|---|---|
| Scan.ClassesDisjoint | src/scan.rs:768-778 | Space, line-end and identifier bytes are disjoint classes. Every digit is alphanumeric. `is_alpha_numeric` is ASCII alphanumeric plus '_' |
| Scan.IsNumeral | src/scan.rs:281-297 | `is_numeral` accepts every digit. Below base 10 it accepts no letter. From base 10 (while the `u8` bound does not wrap) it accepts exactly 'a'..='a'+(base-10) and 'A'..='A'+(base-10), bounds included |
| Scan.DigitsForBase | src/scan.rs:410-422 | `digits_for_base` succeeds iff base <= 36, with 10 digits up to base 10 and 2b-10 above |
| Scan.DigitsForBaseShape | src/scan.rs:410-422 | Base 0 and every base up to 10 give the ten decimal digits. A base b from 11 to 36 gives the decimal digits, then b-10 lower-case letters, then b-10 upper-case letters |
| Scan.DigitsForBaseMembers | src/scan.rs:410-422 | A character is in the digit set of a base up to 36 iff it is a decimal digit, or (above base 10) one of the first base-10 letters of either case |
| Scan.NumeralIsDigitsPlusOne | src/scan.rs:281-297 | For bases 11 to 36, `is_numeral` accepts the base's digits plus one extra letter of each case ('a'+(base-10) and 'A'+(base-10)) |
| Scan.BaseDigitIsInDigitsForBase | src/scan.rs:780-802 | For bases up to 36, a byte passes the digit test of `is_all_digits` iff it is in `digits_for_base(base)` |
| Scan.IsAllDigits | src/scan.rs:780-802 | `is_all_digits(s, base)` holds iff every byte is a digit of the base, except that the first 'j' is skipped. Any later 'j' must itself be a digit |
| Scan.IsIdentifier | src/scan.rs:746-765 | `is_identifier` holds iff the string is not "_", does not start with a digit, and holds only letters, digits and '_'. The empty string passes |
| Scan.OperatorStart | src/scan.rs:299-341 | `is_operator` re-enters the scanner exactly on `!=`, `>>`, `>=`, `<<`, `<=`, `**` and on '=' not followed by a different byte. The bytes ? + - / % & ^ , ! > < * and the vertical bar are otherwise operators. No letter, digit, '_', space or line end is one |
| Scan.ScanState.Next | src/scan.rs:197-201 | `next_inner` returns the byte under the cursor and moves past it. At the end of the line it returns none and stays. `last_char` records the read |
| Scan.ScanState.Errorf | src/scan.rs:259-265 | `errorf` sets an Error token with the message whose line field is the item start, empties the line, and resets `pos` and `start` to 0 |
| Scan.ScanState.Backup | src/scan.rs:217-228 | `backup` steps back exactly one byte after a read inside the item, and changes nothing when nothing was read. After a read at the start of the item it is the "internal error: backup at start of input" error |
| Scan.ScanState.Emit | src/scan.rs:230-237 | `emit(t)` makes the word `input[start..pos]` a token of type t and starts an empty word at `pos`. The line count (also the token's line) goes up by one iff t is Newline |
| Scan.ScanState.Accept | src/scan.rs:239-247 | `accept` returns true and advances by exactly one iff the next byte is in `valid`. Otherwise `pos` is unchanged, including at end of input. Start, line and token are unchanged |
| Scan.ScanState.AcceptRun | src/scan.rs:250-257 | `accept_run` leaves `pos` at the first byte not in `valid`, or at the end. Every byte skipped is in `valid` |
| Scan.ScanState.Peek2 | src/scan.rs:209-215 | `peek2` returns the next two bytes (none past the end) and leaves `pos`, `start`, line, token and input unchanged |
| Scan.ScanState.SkipComment | src/scan.rs:446-453 | The comment loop consumes up to and including the first newline, or to the end of the line |
| Scan.ScanState.BeginToken | src/scan.rs:267-271 | `next_token` starts with no byte read and the token (EOF, line field `pos`, text "EOF"), and the cursor is unchanged |
| Scan.LexAnyPunctuation | src/scan.rs:461-497 | In `Lex::Any`, '\n', ';', '[', ']', '(', ')' and ':' are consumed and emitted as Newline, Semicolon, LeftBrack, RightBrack, LeftParen, RightParen or Colon with the word ending at that byte. Only '\n' advances the line |
| Scan.SignIsOperator | src/scan.rs:476-497 | A '+' or '-' read in `Lex::Any` always moves to the operator state, consumed, with the token unchanged |
| Scan.LexAnyPutsBack | src/scan.rs:645-653 | A digit or '.' is put back for the number state, and a letter or '_' is put back for the identifier state |
| Scan.LexAnyStateChanges | src/scan.rs:461-475 | In `Lex::Any`, '#' moves to `Comment`, '`' to `RawQuote` and a space or tab to `Space`, each consumed. A quote is put back for `Quote`. The token is untouched |
| Scan.LexAnyOperatorBytes | src/scan.rs:665-668 | '?', '/', '%', '&', '^', ',' and the vertical bar read in `Lex::Any` move to the operator state, consumed. So do '!', '>', '<' and '*', unless they start a doubled form, where the scanner is re-entered |
| Scan.LexAnyCharOrError | src/scan.rs:681-684 | Any other ASCII byte is emitted as a one-byte Char token. A byte of 128 or more gives the Error token "unrecognized character N" (N in decimal) and discards the line |
| Scan.LexAnyAtEnd | src/scan.rs:462-464 | At the end of the line `Lex::Any` stops and leaves the token as it was |
| Scan.AssignOnlyBeforeEquals | src/scan.rs:654-661 | '=' followed by '=' emits an Assign token whose text ends at the first '='. Any other '=' re-enters the scanner |
| Scan.CommentEndsLine | src/scan.rs:445-460 | A comment on a non-empty line emits a Newline token holding the line's last byte, on the next line number, with the cursor at the end. When that last byte is a UTF-8 continuation byte, the slice in `word()` (src/scan.rs:152-154) is not at a char boundary and the run panics. On an empty line the state returns to `Lex::Any` |
| Scan.RawQuoteToBackquote | src/scan.rs:626-640 | A raw string ends at the first backquote. It is emitted as a String token from the item start through that backquote. Without a backquote the result is the "unterminated raw quoted string" error and an emptied line |
| Scan.IdentifierWordKinds | src/scan.rs:520-538 | The word "op" is emitted as Op whatever the context defines. "o" before '.' moves to the operator state, and otherwise "o" is emitted as an Identifier token even when it is defined. Any other defined word is an operator. An undefined word of digits in the input base is rescanned as a number. Every other word is an Identifier token |
| Scan.Scanner.constructor | src/scan.rs:133-148 | A new scanner is at line 0 and position 0 with the default EOF token and no byte read |
| Scan.Scanner.NextInner | src/scan.rs:197-201 | The in-place `next_inner` leaves the state `ScanState.Next` describes |
| Scan.Scanner.Peek | src/scan.rs:203-206 | `peek` returns the byte under the cursor without moving |
| Scan.Scanner.Peek2 | src/scan.rs:209-215 | The in-place `peek2` agrees with `ScanState.Peek2` |
| Scan.Scanner.Errorf | src/scan.rs:259-265 | The in-place `errorf` agrees with `ScanState.Errorf` and ends the item |
| Scan.Scanner.Backup | src/scan.rs:217-228 | The in-place `backup` agrees with `ScanState.Backup` |
| Scan.Scanner.Emit | src/scan.rs:230-237 | The in-place `emit` agrees with `ScanState.Emit` and ends the item |
| Scan.Scanner.Accept | src/scan.rs:239-247 | The in-place `accept` agrees with `ScanState.Accept` |
| Scan.Scanner.AcceptRun | src/scan.rs:250-257 | The `accept_run` loop ends in the state `ScanState.AcceptRun` describes |
| Scan.Scanner.FallThrough | src/scan.rs:645-663 | The in-place `fallthrough` agrees with `ScanState.FallThrough` |
| Scan.Scanner.FallThrough2 | src/scan.rs:665-685 | The in-place `fallthrough2` agrees with `ScanState.FallThrough2` |
| Scan.Scanner.LexAny | src/scan.rs:461-497 | One run of `Lex::Any` in place agrees with `ScanState.LexAny` in the configured input base |
| Scan.Scanner.LexComment | src/scan.rs:445-460 | The comment loop in place agrees with `ScanState.LexComment`, including the panic on a last byte that is not at a char boundary |
| Scan.Scanner.LexRawQuote | src/scan.rs:626-640 | The raw-quote loop in place agrees with `ScanState.LexRawQuote` |
| Scan.Scanner.LexIdentifierWord | src/scan.rs:520-538 | The word classification in place agrees with `ScanState.LexIdentifierWord` |
| Scan.Scanner.BeginToken | src/scan.rs:267-271 | The resets at the head of `next_token` agree with `ScanState.BeginToken` |
| UnaryBuiltins.Name | src/value/eval/unary.rs:29-38 | Every builtin has a name in the operator table |
| UnaryBuiltins.FromStr | src/value/eval/unary.rs:29-38 | `from_str` succeeds exactly on "?", "sqrt", "acos", "char" and "code", and the builtin found carries that name |
| UnaryBuiltins.FromStrName | src/value/eval/unary.rs:29-38 | Each builtin is found again under its own name |
| UnaryBuiltins.IsUnaryOp | src/value/eval/unary.rs:22-24 | `is_unary_op(s)` holds iff `from_str(s)` succeeds, i.e. iff s is one of the five names |
| UnaryBuiltins.Isqrt | src/value/eval/unary.rs:47-50 | The integer square root r of n satisfies r*r <= n < (r+1)*(r+1) |
| UnaryBuiltins.Apply | src/value/eval/unary.rs:42-87 | `eval_unary` of a builtin succeeds only for `sqrt` of a Float or of an Int other than -2147483648, `acos` of a Complex, `char` of a Char or of a scalar-value Int, and `code` of a Char. Roll is never implemented |
| UnaryBuiltins.SqrtOfNonNegativeInt | src/value/eval/unary.rs:47-50 | `sqrt` of Int(f) with f >= 0 is Int(r) with r*r <= f < (r+1)*(r+1) |
| UnaryBuiltins.SqrtOfNegativeInt | src/value/eval/unary.rs:51-52 | `sqrt` of a negative Int(f) is complex(Int(0), Int(r)) with r the floor square root of -f. The most negative Int, -2147483648, panics in `abs` |
| UnaryBuiltins.CharOfChar | src/value/eval/unary.rs:69-71 | `char` returns a Char unchanged |
| UnaryBuiltins.CharOfInt | src/value/eval/unary.rs:73-77 | `char` of Int(n) succeeds iff n is a Unicode scalar value, and then yields the character with code point n |
| UnaryBuiltins.CodeOfChar | src/value/eval/unary.rs:81-83 | `code` of a Char is the Int of the low eight bits of its code point |
| UnaryBuiltins.CodeCharRoundTrip | src/value/eval/unary.rs:68-85 | `code(char(n)) == n` for 0 <= n < 256 |
| UnaryBuiltins.CharCodeRejectOthers | src/value/eval/unary.rs:68-85 | `char` of anything but Char or Int panics, and `code` of anything but Char panics |
| BinaryBuiltins.FromStr | src/value/eval/binary.rs:24-29 | `from_str` succeeds exactly on "+" |
| BinaryBuiltins.IsBinaryOp | src/value/eval/binary.rs:17-19 | `is_binary_op(s)` holds iff s is "+" |
| Exprs.FromValue | src/value/context/expr.rs:58-62 | `From<Value>` wraps exactly the given value in a Value node |
| Exprs.NewBinary | src/value/context/expr.rs:64-80 | `binary` builds a Binary node holding exactly the given op, left and right |
| Exprs.NewConditional | src/value/context/expr.rs:64-80 | `conditional` builds a Conditional node holding exactly the given op, left and right |
| Exprs.NewUnary | src/value/context/expr.rs:82-86 | `unary` builds a Unary node holding exactly the given op and operand |
| Exprs.NewIndex | src/value/context/expr.rs:88-92 | `index` builds an Index node holding the op, the left operand and the subscripts in their order |
| Exprs.ConstructorsAreNotNil | src/value/context/expr.rs:126-128 | `is_nil` holds of Nil and of no constructed node. `binary` and `conditional` build different nodes |
| Exprs.Eval | src/value/context/expr.rs:99-120 | `eval` succeeds only on trees built entirely from Value, Unary and non-"=" Binary nodes |
| Exprs.EvalFromValue | src/value/context/expr.rs:116 | A Value node evaluates to its value |
| Exprs.EvalUnaryNode | src/value/context/expr.rs:112-114 | A Unary node applies the context's `eval_unary` to its evaluated operand |
| Exprs.EvalBinaryNode | src/value/context/expr.rs:102-109 | A non-"=" Binary node applies the context's `eval_binary` to the evaluated operands, evaluating the right operand first |
| Exprs.EvalUnimplemented | src/value/context/expr.rs:99-120 | Every node other than Value, Unary and non-"=" Binary, and the "=" node, is unimplemented |
| Exprs.EvalTotalOnFragment | src/value/context/expr.rs:99-120 | When the context's operators never fail, `eval` succeeds on every tree of that fragment |
| Exec.ResolveUnary | src/exec/context.rs:135-143 | `unary(op)` is the user definition when `unary_fn` has op. Otherwise it is the builtin of that name, and none iff op names no builtin |
| Exec.EvalUnaryWith | src/exec/context.rs:121-133 | `eval_unary` sends an op longer than one character ending in '/' to `reduce`, and one ending in '\' to `scan`, without that character. Any other op, "/" included, applies the resolved operator, and the `unwrap` panics when none resolves |
| Exec.SlashAloneIsLookedUp | src/exec/context.rs:121-133 | The single-character op "/" is not a reduction. It is looked up, and fails unless the user defined it |
| Exec.UserDefinitionShadowsBuiltin | src/exec/context.rs:135-143 | A user-defined unary operator shadows the builtin of the same name |
| Exec.BuiltinDispatch | src/exec/context.rs:121-143 | A builtin name without a user definition evaluates that builtin |
| Exec.EvalAll | src/exec/context.rs:117-119 | A successful `eval` of a list has one value per expression, the first being the first expression's value |
| Exec.EvalAllInOrder | src/exec/context.rs:117-119 | `eval` of a list gives one value per expression in order iff every expression evaluates. Otherwise it reports the first failure |
| Exec.Slots | src/exec/context.rs:107 | The fresh slots of a frame all hold `Value::default()` |
| Exec.PushKeepsBalance | src/exec/context.rs:103-108 | `push` keeps the stack length equal to the sum of the frame sizes |
| Exec.PushThenPopAsWritten | src/exec/context.rs:111-114 | Push then pop restores the frame sizes. It restores the stack length only for a one-local frame, or a zero-local frame on an empty stack |
| Exec.PopAsWrittenUnbalances | src/exec/context.rs:111-114 | Popping a pushed frame of any other size leaves the stack unbalanced |
| Exec.TwoLocalFrameLeavesSlot | src/exec/context.rs:111-114 | Pushing a two-local function on an empty context and popping it leaves one slot behind |
| Exec.PopFrameUndoesPush | src/exec/context.rs:110-114 | The intended pop undoes push exactly |
| Exec.PopFrameKeepsBalance | src/exec/context.rs:110-114 | The intended pop keeps the stack balanced |
| Exec.Context.constructor | src/exec/context.rs:54-65 | `new` makes every stack and table empty |
| Exec.Context.Global | src/exec/context.rs:79-81 | `global(name)` is the bound value, or none iff the name is unbound |
| Exec.Context.Local | src/exec/context.rs:84-87 | `local(i)` is `stack[len-i]`, for 1 <= i <= len |
| Exec.Context.AssignLocal | src/exec/context.rs:90-93 | `assign_local(i, v)` makes `local(i)` v. The stack length and every other local are unchanged |
| Exec.Context.AssignGlobal | src/exec/context.rs:98-100 | After `assign_global(name, v)`, `global(name)` is v and every other global is unchanged |
| Exec.Context.SetConstants | src/exec/context.rs:72-75 | `set_constants` binds exactly "e" and "pi" to the doubles E and PI and leaves every other global |
| Exec.Context.Push | src/exec/context.rs:103-108 | `push(fun)` appends `fun.locals.len()` to the frame sizes and that many default slots to the stack. Existing locals move up by that count and are unchanged |
| Exec.Context.Pop | src/exec/context.rs:111-114 | `pop` as written removes the last frame size and one stack slot |
| Exec.Context.PopFrameIntended | src/exec/context.rs:110-114 | The corrected pop removes the last frame with all its slots and keeps a balanced stack balanced |
| Exec.Context.Unary | src/exec/context.rs:135-143 | `unary(op)` is the user definition when there is one. Otherwise it is the builtin whose name is op, and none iff op names no builtin |

## Left out

- Reading input (`load_line`, and the refill in `read_rune`) is I/O. The
  scanner works on one fixed line, and reading past its end yields no byte.
  The "incomplete token" path of `read_rune` cannot occur, because
  `next_token` sets `read_ok` first.
- The `next_token` driver loop, `Lex::Space`, the reading loop and
  `at_terminator` test of `Lex::Identifier`, `Lex::Quote`, `Lex::Operator`,
  `Lex::Complex`, `accept_number` and `scan_number` are not modelled. They
  advance by calling `next_token()` recursively, or depend on paths that do.
  The quote loop consumes two bytes per turn. Their effect is not a bounded
  step to specify.
- Scan.IsIdentifier: `char::is_alphabetic` is modelled as the ASCII
  letters. Non-ASCII letters are rejected where the source accepts them.
- Scan.IdentifierWordKinds: the modelled word classification cannot be
  reached as written.
  - The reading loop of `Lex::Identifier` (src/scan.rs:510-515) calls
    `next_token()` on the byte just put back. That runs `Lex::Any` into
    `Lex::Identifier` again at the same position, so the recursion does not
    end.
  - The test at src/scan.rs:516 raises its error exactly when the word is
    followed by a terminator.
  - The classification is modelled as the step that follows a completed
    word.
- Scan.Scanner.LexIdentifierWord: whether a word is defined (`predefined` or a
  user definition) is a parameter. Those functions are defined outside the
  files modelled here.
- Scan.IsNumeral: the letter range is stated for bases up to 168. Beyond
  that the `u8` addition wraps (as in a release build; a debug build
  panics). The predicate `IsNumeral` itself models the wrap.
- Scan.IsAllDigits: the bounds `top` and `ctop` (src/scan.rs:781-783) are
  `u8` arithmetic too. `DigitTop` models the release-build wrap for large
  bases. The debug-build overflow panic is not modelled.
- Scan.CommentEndsLine: the input line is a sequence of bytes, not a
  checked UTF-8 `String`. The char-boundary panic is modelled by the head
  of its message only. Rust appends the character and its byte range.
- Exec.Context.Local: `requires 1 <= i <= |stack|` leaves out the source's
  index panic (src/exec/context.rs:86) for an index outside the stack.
  Nothing in these files calls `local` yet.
- Exec.Context.AssignLocal: `requires 1 <= i <= |stack|` leaves out the
  source's index panic (src/exec/context.rs:92) for an index outside the
  stack. Nothing in these files calls `assign_local` yet.
- Token and Type `Display`, `prog_string` and value formatting are
  presentation only.
- Floating point: `sqrt` of a Float and `acos` of a Complex are kept
  symbolic (`SqrtOf`, `AcosOf`). The constants e and pi are their bit
  patterns.
- `Roll` (random), `reduce`, `scan`, `product`, `BinaryBuiltin::eval_binary`
  and user `Function` evaluation are `todo!()` in the source. The model keeps
  only the dispatch to them, which yields an `Unimplemented` failure.
- Exec.Context.Eval: the source's `flat_map` over each result is modelled as
  stopping at the first failing expression. It has no contract of its own,
  and `Exec.EvalAllInOrder` states its behaviour.
- Exec.Context.EvalUnary has no contract of its own. It is
  `Exec.EvalUnaryWith` over the context's `unary_fn`, and that function's
  contract states the behaviour.
- The configuration, the parser, `run` and `main` hold no logic beyond the
  input base. The input base is the scanner's constant `inputBase`.
- `Value::complex` is defined outside the files modelled here. It is
  modelled as the pair constructor `Of`.

## Findings

| source | as written | input that shows it | evidently intended | confidence | as-written member | corrected member |
|---|---|---|---|---|---|---|
| src/exec/context.rs:111-114 | `pop` removes the last frame size but only one stack slot | push a function with two locals on an empty context, then pop: one slot is left on the stack | pop removes all the slots of the top frame, undoing push | high, not executed | Exec.PopAsWrittenUnbalances | Exec.PopFrameUndoesPush |
