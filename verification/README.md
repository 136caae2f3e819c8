# robot_dsl core in Dafny

A Dafny model of the core of `robot_dsl`. This is a small scripting language for linear
dialogue and control scripts. The model covers:

- **Token model** (`tokens.dfy`, module `Tokens`): the `Token` enum. Each lexeme
  class (the seven case-insensitive keywords, six punctuation characters, four operators,
  identifiers, numbers, strings, the skip rules and the error token) is a predicate on
  the lexeme text. String-literal quote stripping is a function.
- **Lexer adapter** (`lexer.dfy`, module `Lexer`): `Lexer::next`. It turns the scanner's
  `(token, span)` pairs into `Ok((start, token, end))`, or into
  `Err(InvalidToken)` for the error token.
- **Syntax tree** (`ast.dfy`, module `Ast`): `Expr`, `LiteralValue` with its display,
  and `Statement`.
- **Environment stack** (`environment.dfy`, module `Environment`): a
  `seq<map<string, string>>`. Entering a block pushes a copy of the top frame
  (`add_new_env`). Leaving it merges the top frame down and pops it
  (`update_env`, `rm_now_env`). A binding writes only the top frame (`add_new_var`).
- **Expression evaluator** (`evaluator.dfy`, module `Evaluator`): `exec` (`Exec`)
  reduces an expression to a literal and may write the frame. `trans` (`Trans`)
  produces display text on a copy of the frame. Both implement the dynamic
  number/string coercion rules of `+ - * /` and equality.
- **Statement executor** (`interpreter.dfy`, module `Interpreter`): `execute` for all
  eight statement kinds.

Shared pieces:

- `results.dfy` defines `Option` and `Result`.
- `numbers.dfy` defines `NumOps<N>`. The program computes on `f64`. The model is
  generic over a number type `N`. Addition, subtraction, multiplication and division,
  the zero test, numeric equality, `str::parse::<f64>` and `f64::to_string` are fields
  of a record. Every property therefore holds for every choice of them.

Effects are modelled as follows:

- Every `panic!`, and every failing `unwrap` (the variable lookup in `exec`), becomes
  `Halted(Panicked(kind), output)`. The kind is the model's classification of the
  failure: an `unwrap` failure carries no message in the source, and
  `UnboundVariable(name)` at that site names the variable only in the model. The error kinds are
  `UnboundVariable`, `TypeMismatch`, `DivisionByZero`, `NonBooleanCondition`,
  `IllegalChainedAssignment` and `MissingOperator`.
- `process::exit(0)` becomes `Halted(Exited, output)`.
- `println!` appends to an output trace.
- `read_line` + `trim` takes the next element of a given input sequence. After the
  input runs out it takes the empty line, as `read_line` leaves the buffer empty at
  end of input.
- `loop` repeats under a fuel bound and halts with `OutOfFuel` when the bound runs out.

Main results:

- **Blocks do not scope.** `Interpreter.BlockIsTransparent` proves that running
  `Block(ss)` gives exactly the outcome of running `ss` directly in the enclosing frame.
  Two facts make this true. A block's frame starts as a copy of the parent, and frames
  never lose names. So the merge on exit (`parent + child`) is just the child frame.
  Names first declared inside a block therefore survive it.
- **Only the top frame matters.** `Interpreter.ExecuteSeesOnlyTop` proves that the
  frames below the top frame never influence execution. `Interpreter.Execute`'s contract
  adds that they are never changed.
- **Coercion rules.** Each of `+`, `- * /` and equality is stated against an
  independent reference. The reference says when the operand pair has a numeric reading
  (`Evaluator.NumericPair`): two numbers, or two strings that both parse. It also says
  what each operand displays as.

Facts about the source that shape the model:

- **Identifiers are ASCII-only.** The identifier pattern at `src/tokens.rs:55` accepts
  only ASCII letters, digits and `_` (`Tokens.IdentifiersAreAscii`). The
  Chinese-identifier lexer tests at `src/lexer.rs:122-131` assert nothing when the lexer
  does not return `Ok`, so they do not contradict this.
- **No equality token.** `src/interpreter.rs:440` matches `Token::WEqual`, which
  `src/tokens.rs` does not define. The model's operator type `Ast.Op` has an `Eq` case
  standing for that arm. `Ast.OperatorOf` proves that no token of the token set maps
  to it.
- **No literal `trans`.** `src/interpreter.rs:180` calls `value.trans()` on a
  `LiteralValue`, and no such method appears in the source. The model takes it to be
  `Display for LiteralValue` (`src/ast.rs:49-56`): a number shows through the
  renderer and a string shows as itself.
- **Integer literals do not lex.** The parser test at `src/main.rs:50-58` expects `42`
  to parse, but `src/tokens.rs:57` only lexes numbers with a dot
  (`Tokens.IntegerLiteralIsNotANumber`). The example programs are therefore stated for
  an arbitrary number `n` (`Interpreter.SpeakVariableProgram`,
  `Interpreter.BranchProgram`).

## Model

| member | source | states |
|---|---|---|
| `Tokens.StripQuotes` | src/tokens.rs:59 | The content of a string literal is the lexeme without its two quotes. It never contains a quote, and quoting it gives back the lexeme. |
| `Tokens.QuoteRoundTrip` | src/tokens.rs:59 | Any quote-free text, once quoted, is a string lexeme whose stripped content is that text. |
| `Tokens.KeywordIgnoresCase` | src/tokens.rs:15-28 | A lexeme is a keyword's lexeme exactly when its case folding is the keyword's lower-case spelling. Two spellings that fold alike are both matched or both not. |
| `Tokens.Lexeme` | src/tokens.rs:12-67 | The token patterns and callbacks, one case per token: a text is a lexeme of a token when the token's pattern matches it under ASCII case folding, and the token carries what the callback computes from it. The error token covers text that is not skipped and that no other pattern matches, or that the number pattern matches but the parser rejects. |
| `Tokens.KeywordSpellingIsLexeme` | src/tokens.rs:15-28 | Each keyword spelled in lower case is a lexeme of its keyword token, with no further condition. |
| `Tokens.KeywordsOverlapIdentifiers` | src/tokens.rs:15-55 | Every keyword lexeme also matches the identifier pattern, which is the overlap the scanner's priority resolves. |
| `Tokens.FixedTokensAreSingleDistinctChars` | src/tokens.rs:31-52 | The lexeme of each punctuation or operator token is its one fixed character. No other token has that lexeme. |
| `Tokens.LiteralTokensCarryTheirText` | src/tokens.rs:55-59 | An identifier token carries its lexeme unchanged. A string token carries the lexeme minus its quotes, and that content has no quote. |
| `Tokens.NumberNeedsOneDot` | src/tokens.rs:57 | A number lexeme has exactly one dot, at one position, with digits everywhere else, so it is never all digits. |
| `Tokens.DigitsAreNotANumber` | src/tokens.rs:57 | A digit string without a dot is not a number lexeme. |
| `Tokens.SkipsProduceNoToken` | src/tokens.rs:62-66 | Whitespace runs and `#` comments are lexemes of no token, not even the error token. |
| `Tokens.IdentifiersAreAscii` | src/tokens.rs:55 | A lexeme whose first character is outside ASCII, such as the Chinese characters of the lexer tests, is not an identifier. |
| `Tokens.LexerTestKeywords` | src/lexer.rs:58-65 | The six lower-case test words `global`, `fn`, `speak`, `input`, `if` and `exit` are lexemes of their keyword tokens. |
| `Tokens.KeywordSpellings` | src/tokens.rs:15-28 | `GLOBAL` and `eXiT` are keyword lexemes, as the case-insensitive patterns allow. The longer word `iff` is not the `if` keyword. |
| `Tokens.LexerTestIdentifiers` | src/lexer.rs:88-105 | The five test identifiers `identifier123`, `_underscore`, `CamelCase`, `leadingDigit123` and `mixed_Case123` are identifier lexemes carrying their own text. |
| `Tokens.LexerTestNumbers` | src/lexer.rs:108-111 | `123.456`, `0.5`, `1.0` and `2.5` are number lexemes. |
| `Tokens.IntegerLiteralIsNotANumber` | src/main.rs:50-58 | The integer `42` of the parser's declaration test is not a number lexeme. |
| `Tokens.LexerTestStrings` | src/lexer.rs:113-116 | The lexeme `"This is a string"` is a string lexeme carrying the text between the quotes. |
| `Tokens.LexerTestTrailingBlankString` | src/lexer.rs:117-120 | The first lexeme of the second test input, a quoted text ending in a blank, carries that text including the blank. |
| `Tokens.StringLexemeOf` | src/tokens.rs:59 | Quoting quote-free text gives a lexeme of the string token that carries exactly that text. |
| `Lexer.Convert` | src/lexer.rs:34-39 | The error token becomes `Err(InvalidToken)`. Every other token becomes `Ok` with the token and both span ends unchanged, so an `Ok` never carries the error token. |
| `Lexer.Next` | src/lexer.rs:33-41 | `next` returns nothing exactly when the scanner is exhausted. Otherwise it returns an error exactly when the next scanned token is the error token. |
| `Lexer.Lex` | src/lexer.rs:33-41 | There is one output item per scanned pair, in order, each equal to what `next` yields at that position. Error items sit exactly at error tokens, and `Ok` items carry the token and span. |
| `Lexer.LexAppend` | src/lexer.rs:33-41 | Lexing works item by item: lexing a concatenated stream is lexing each piece and concatenating the results. |
| `Ast.OperatorOf` | src/tokens.rs:44-52 | The four operator tokens map to the four arithmetic operators, every other token maps to "other", and no token maps to equality. |
| `Ast.Display` | src/ast.rs:49-56 | How a literal prints: a number through the number renderer, a string as itself. Its partners are `Evaluator.TransAgreesWithExec` and the display clauses of `Evaluator.AddValues` and `Evaluator.EqualValues`. |
| `Environment.PushScope` | src/interpreter.rs:25-28 | Entering a block adds one frame that equals the old top frame and keeps the whole old stack under it. |
| `Environment.MergeTop` | src/interpreter.rs:41-66 | With fewer than two frames nothing changes. Otherwise the frame under the top becomes itself overridden by the top frame: every key of the top gets the top's value, other keys keep theirs. No other frame changes. |
| `Environment.MergeUpdatesIsOverride` | src/interpreter.rs:54-64 | Extending the parent with only the entries that differ gives the same frame as overriding it with the whole child. |
| `Environment.PopScope` | src/interpreter.rs:30-33 | Leaving a block lowers the stack by one, and the new top is the old parent overridden by the block's frame. |
| `Environment.Bind` | src/interpreter.rs:36-38 | A binding sets one name in the top frame to the given text. Every other name of the top frame and every lower frame is unchanged. |
| `Environment.PushPopIdentity` | src/interpreter.rs:25-33 | Entering and immediately leaving a block gives back the same stack. |
| `Environment.PopKeepsInnerFrame` | src/interpreter.rs:41-66 | When the block's frame has every name of its parent, leaving the block replaces the parent by the block's frame outright. |
| `Environment.PopOverPushed` | src/interpreter.rs:41-66 | Leaving a scope whose final frame has all names of the frame it was pushed over yields the enclosing stack with that final frame on top. |
| `Environment.PopAfterPush` | src/interpreter.rs:135-141 | Leaving a block that was pushed over a stack restores that stack's height and lower frames. The new top is the old top overridden by the block's frame. |
| `Evaluator.AddValues` | src/interpreter.rs:207-278 | `+` gives the numeric sum when the pair has a numeric reading: two numbers, or two strings that both parse. Otherwise it gives the left-then-right concatenation of the display texts. A number paired with a string always concatenates, rendering the number. |
| `Evaluator.ArithValues` | src/interpreter.rs:279-439 | `- * /` fail with a type mismatch exactly when the pair has no numeric reading. A number with a string fails even if the string parses. `/` fails with division by zero exactly when the numeric right operand is zero, on both paths. Otherwise the result is the number operation on the pair. |
| `Evaluator.EqualValues` | src/interpreter.rs:440-533 | Equality always yields the string "True" or "False". Two numbers compare numerically. Any pair with a string compares display texts exactly, with the number rendered. |
| `Evaluator.Apply` | src/interpreter.rs:206-537 | Dispatch fails with a missing operator exactly for an operator outside `+ - * /` and equality. `+` and equality never fail, and equality yields a truth string. |
| `Evaluator.Exec` | src/interpreter.rs:190-554 | On success, the frame gains exactly the names the expression writes: assignment targets outside assignment values. Every other name keeps its value. |
| `Evaluator.Trans` | src/interpreter.rs:160-189 | `trans` of an assignment fails as a chained assignment. For any other expression it succeeds exactly when `exec` does, gives the display of `exec`'s literal, and fails with `exec`'s error. A variable's text is its binding, and it fails exactly when the name is unbound. |
| `Evaluator.TransAgreesWithExec` | src/interpreter.rs:160-189 | For all but an assignment, the display text is the display of the literal `exec` produces, and both fail with the same error. A bound variable reads as a string literal of its text. |
| `Evaluator.ChainedAssignmentIsRejected` | src/interpreter.rs:162-164 | Asking for the text of an assignment fails with the chained-assignment error. |
| `Evaluator.UnboundVariableIsRejected` | src/interpreter.rs:181-186 | Reading an unbound name fails with that name, both in `trans` and in `exec` (the `unwrap` at line 548). |
| `Evaluator.MissingOperatorIsRejected` | src/interpreter.rs:534-536 | A binary node with an unhandled operator reports a failing left operand first. Once both operands evaluate, it fails with the missing-operator error. |
| `Evaluator.AssignTouchesOneKey` | src/interpreter.rs:192-196 | An assignment yields the sentinel literal and binds the target to the value's display text, leaving every other entry alone. |
| `Evaluator.NoWritesNoChange` | src/interpreter.rs:198-206 | An expression with no assignment outside assignment values leaves the frame unchanged. |
| `Evaluator.AddConcatenatesText` | src/interpreter.rs:204-278 | `+` over two operands that yield text, the first of which does not parse as a number, yields the concatenation of the texts. The right operand runs on the frame the left one leaves, and the node leaves the frame the right one leaves. |
| `Evaluator.LiteralOperands` | src/interpreter.rs:198-206 | A binary node over two literals yields the operator's result on them, or its error, and leaves the frame alone. |
| `Evaluator.TestAddition` | src/interpreter.rs:566-613 | After `name = "Tom"`, `"你好" + (name + "，请问有什么需要帮助的？")` concatenates left to right, given that those texts do not parse as numbers. |
| `Evaluator.TestComplexEquality` | src/interpreter.rs:617-654 | A variable bound to "Hello" equals the literal "Hello". |
| `Interpreter.AddNewVar` | src/interpreter.rs:35-39 | `add_new_var` evaluates the initializer with `trans` on the top frame. It completes exactly when that succeeds and then binds the name to the text in the top frame, leaving lower frames, input and output alone. Otherwise it halts with the evaluation's error and the output so far. |
| `Interpreter.ReadLine` | src/interpreter.rs:97-101 | Reading consumes the first pending line and returns it. At end of input it returns the empty line and consumes nothing. |
| `Interpreter.Interpret` | src/interpreter.rs:78-84 | A program that completes leaves exactly one frame on the stack and has only consumed input from the front. |
| `Interpreter.Execute` | src/interpreter.rs:86-143 | After normal completion of any statement, the stack height is unchanged and no frame below the top has changed. The top frame has lost no name, input lines were only consumed from the front, and output lines were only appended. |
| `Interpreter.ExecuteAll` | src/interpreter.rs:137-139 | The same guarantees hold for a sequence of statements run in order. |
| `Interpreter.ExecuteSeesOnlyTop` | src/interpreter.rs:86-143 | Two states with the same top frame, input and output lead to the same halt, or to completions with the same top frame, input and output. |
| `Interpreter.BranchSeesOnlyTop` | src/interpreter.rs:115-134 | The same holds for a branch: the condition and the consequent see only the top frame. |
| `Interpreter.LoopSeesOnlyTop` | src/interpreter.rs:94-96 | The same holds for a loop, iteration by iteration. |
| `Interpreter.BlockSeesOnlyTop` | src/interpreter.rs:135-141 | The same holds for a block, across its push, body and merge-pop. |
| `Interpreter.ExecuteAllSeesOnlyTop` | src/interpreter.rs:137-139 | The same holds for a sequence of statements. |
| `Interpreter.BlockIsTransparent` | src/interpreter.rs:135-141 | Running a block has exactly the outcome of running its statements directly in the enclosing frame: a block keeps the stack height and provides no isolation. |
| `Interpreter.EmptyBlockIsNoOp` | src/interpreter.rs:135-141 | An empty block leaves the state unchanged. |
| `Interpreter.LoopNeverCompletes` | src/interpreter.rs:94-96 | A loop never completes normally. It ends only when its body exits or fails, or when the fuel runs out. |
| `Interpreter.BranchOnTruth` | src/interpreter.rs:115-134 | A branch runs its consequent exactly when the condition is "True" and does nothing more on "False". Any other string, and any number, fails as non-boolean. Frame writes made by the condition are kept. |
| `Interpreter.BindingsTouchOneKey` | src/interpreter.rs:91-111 | `global`, an assignment statement and `input` each rebind one name of the top frame and change nothing else. `input` binds the next input line and consumes it. |
| `Interpreter.SpeakStep` | src/interpreter.rs:88-90 | `speak e` appends the text of `e` to the output and changes nothing else. |
| `Interpreter.NumbersAreStoredAsText` | src/interpreter.rs:35-39 | After `global x = n`, reading `x` yields the string literal of the rendered number: bindings are text. |
| `Interpreter.SpeakVariableProgram` | src/interpreter.rs:86-93 | `global x = n; speak x;` completes and prints exactly the rendered number. |
| `Interpreter.LoopExitProgram` | src/interpreter.rs:94-114 | `loop { speak "x"; exit; }` prints "x" exactly once and exits. |
| `Interpreter.BranchProgram` | src/interpreter.rs:115-141 | `if (a == a) { speak "hi"; }` prints "hi" when `a` equals itself numerically. |
| `Interpreter.InnerNamesLeak` | src/interpreter.rs:41-66 | A name first declared inside a block is still bound, to the declared text, after the block. |

## Left out

- Real standard input and output, and the process exit, are replaced by an input
  sequence, an output trace and the `Exited` halt. The panic of `read_line` on an I/O
  error is not modelled.
- `trim` is not modelled. Each element of the input sequence is the line after trimming.
- IEEE-754 arithmetic, `str::parse::<f64>` and `f64::to_string` are parameters
  (`Numbers.NumOps`). So no fact such as "5.0 renders as 5" is proved, and equality with
  a mixed pair holds only when the renderer produces the string.
- The logos scanning engine is not modelled: longest match, the priority that prefers
  a keyword over the identifier pattern, and the extent of an error token's span. Only
  the per-class lexeme predicates are.
- `Tokens.Lexeme`: the keyword cases fold ASCII letters only, so a Unicode-fold spelling
  such as `ſpeak`, which `(?i)speak` matches, is an `Error` lexeme in the model rather
  than `KeywordSpeak`. The `Error` case also covers any text that no single pattern
  matches as a whole, such as `ab+`, which the scanner would split into an identifier
  and `+`; which error spans the scanner actually produces is not modelled.
- `Tokens.KeywordsOverlapIdentifiers` rests on the same ASCII-only keyword predicate.
  In the source a Unicode spelling such as `ſpeak` matches `(?i)speak` but not the
  ASCII identifier pattern, so for such spellings the overlap does not hold.
- `Tokens.KeywordIgnoresCase` uses ASCII case folding only. The `(?i)` patterns
  follow Unicode simple case folding and may also accept spellings such as `ſpeak`.
- The Chinese-identifier lexer tests (`src/lexer.rs:122-131`) assert nothing when the
  lexer does not return `Ok`. The ASCII identifier pattern rejects those inputs.
- The file-reading lexer test (`src/lexer.rs:136-171`) is left out because it reads a
  file that is not available.
- `src/main.rs` (file loading and the lalrpop parser) is not part of this model. Its
  test expects `42` to parse to `Number(42.0)`, which the number pattern would not lex.
- The `fn` keyword is only a token. It has no syntax-tree node or evaluator behaviour.
- `Display for Expr` (debug formatting) and the `mem::swap` in `interpret` are left
  out. `Interpreter.Interpret` runs the program's statements on one empty frame.
- `Interpreter.Execute` bounds loops by fuel. A program that loops forever in the
  source halts with `OutOfFuel` in the model. Nothing is claimed about programs that
  need more iterations than the fuel allows.
- The panics "Left value is not a Literal", "Right value is not a Literal" and "结果应为字符串"
  cannot happen, because `exec` always returns a literal. The model's `Exec` returns a
  literal by its type.
- Integer widths are not modelled. Spans are natural numbers, not `usize`.
