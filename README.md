# A verified model of a small calculator-language interpreter

The system is a line-at-a-time interpreter for a tiny imperative language:
integer literals, variables of at most four letters, `+ - * /`, the
comparisons `> < ==`, assignment, `if … then … [else …]`,
`while … do { … }` and `;`-separated statements. It has three stages, and
each becomes a pair in this model: a pure specification and an imperative
class proved to compute it.

- **Lexer** (`lexer.dfy`, module `Lexing`). `Scan(text, p)` is one call of
  `get_next_token` with the cursor at `p`. It skips whitespace, then reads an
  INTEGER, a keyword or identifier, `==`/`=`, a one-character operator,
  EOF, or ERROR. Class `Lexer` keeps `pos` and `current_char` as fields.
  `Advance` is a single step of the cursor. `SkipWhitespace`, `Id` and
  `Integer` are while-loop methods proved to stop where the spec functions
  `RunEnd`, `Word` and `DecimalValue` say. `GetNextToken`, `Dispatch`,
  `Symbol` and `Bracket` are proved to produce exactly `Scan`'s token and cursor.
- **Parser** (`grammar.dfy`, `parser.dfy`, modules `Grammar` and `Parsing`).
  The grammar functions are the recursive-descent parser written over
  parser states. A state is the lexer position from which the current token
  was scanned. Class `Parser` holds the lexer and `current_token`. Its
  methods `Eat`, `Factor`, `Term`, `Expr`, `Variable`,
  `AssignmentStatement`, `IfThenStatement`, `WhileStatement`, `Statement`
  and `StatementList` have a contract of this form: the result and the new
  parser state are those of the grammar function of the same name. The
  others are proved against a grammar function of another name: `Body`
  against `Grammar.Block`, its loop step `BodyItem` keeps `Block`'s result,
  `ListRound` keeps `StatementListRest`'s, `Lookahead` gives `Peek`'s kind,
  and `Parse` gives the result of `ParseFrom` (its result only, since the
  parser is not used after it).
  `grammar_facts.dfy` states the individual grammar rules as lemmas, and
  proves for every line without parentheses that `expr` builds a
  left-leaning chain of terms and each term a left-leaning chain of factors.
  `parse_examples.dfy` proves how four concrete lines parse: precedence,
  grouping by parentheses, the single flat level of `+ - > < ==`, and the
  trailing `;`. `run_examples.dfy` proves what `RunStatements` gives for two of them.
- **Interpreter** (`semantics.dfy`, `interpreter.dfy`, modules `Semantics`
  and `Interpreting`).
  - Values are `None`, ints and bools.
  - `Eval` evaluates an expression over the store GLOBAL_SCOPE.
  - `Exec`, `Loop` and `ExecList` run statements. They thread the store and
    the list of warnings printed so far (division by zero, undefined
    variable), and stop at the first exception.
  - Class `Interpreter` holds GLOBAL_SCOPE and the printed warnings as
    fields. Its visitor methods are proved to compute these functions.
  - `InterpretLine` is one line of input: build the lexer, build the
    parser, interpret.

Failures the source raises as Python exceptions are the `Failure` values of
module `Outcomes`. A `while` loop has no iteration bound in the source, so
the statement semantics and the visitors take `fuel`: the number of
iterations each loop may still run. Exhausting it yields `OutOfFuel`, which
is a failure of the model, not of the interpreter. `ExecFuel`, `LoopFuel`
and `ExecListFuel` prove that any run that did not stop for lack of fuel
gives the same result with more fuel.

## Model

| member | source | states |
|---|---|---|
| Lexing.KeywordKind | lexer.py:46-55 | the kind is IDENTIFIER exactly when the word is not one of the five keywords |
| Lexing.RunEnd | lexer.py:32-34 | the end of the longest run of one character class from `i`: every character before it is in the class, and the one at it is not |
| Lexing.DecimalValue | lexer.py:135 | a digit string read in base 10; its last digit is the units digit |
| Lexing.PunctuationKind | lexer.py:70-120 | a character has a one-character kind exactly when it is one of `- + * / > < ( ) ; { }`, and that kind consumes input |
| Lexing.Word | lexer.py:36-41 | the identifier text consists of letters only |
| Lexing.Scan | lexer.py:58-126 | a token and a cursor that never moves back or past the end; only recognised characters are consumed; every kind except EOF and ERROR advances; EOF only at the end; ERROR only on an unknown character, which is left under the cursor |
| Lexing.DecimalRoundTrip | lexer.py:129-135 | reading the decimal spelling of n back as a number gives n |
| Lexing.IntegerToken | lexer.py:64-65 | a maximal digit run is one INTEGER token whose value is the run read in base 10, and the cursor stops after the run |
| Lexing.NumeralRoundTrip | lexer.py:129-135 | the decimal spelling of any natural number lexes as one INTEGER token with that value that consumes the whole text |
| Lexing.WordTooLong | lexer.py:42-44 | a letter run of more than four letters that is not a keyword is the identifier-length error |
| Lexing.WordToken | lexer.py:46-56 | a keyword, or a word of at most four letters, is one token carrying its text, with the keyword's kind or IDENTIFIER |
| Lexing.EqualsOrAssign | lexer.py:95-100 | '==' is one EQUALS token of two characters; a lone '=' is ASSIGN and consumes one character |
| Lexing.PunctuationToken | lexer.py:70-120 | each of `- + * / > < ( ) ; { }` is a token of its own kind that consumes exactly one character |
| Lexing.WhitespaceSkipped | lexer.py:59-62 | scanning from the cursor gives the same as scanning from the end of the whitespace run |
| Lexing.ErrorDoesNotAdvance | lexer.py:122-123 | an unknown character gives ERROR with the cursor left on it, so the next call gives ERROR again |
| Lexing.UnderscoreDoesNotAdvance | lexer.py:67-68 | '_' gives an IDENTIFIER with empty text and does not move the cursor |
| Lexing.EofForever | lexer.py:125-126 | once only whitespace is left, every call gives EOF and leaves the cursor at the end |
| Lexing.Lexer.constructor | lexer.py:17-20 | the cursor is at 0 and `current_char` is the first character |
| Lexing.Lexer.Advance | lexer.py:25-30 | `pos` grows by one and `current_char` is the character at `pos`, or None past the end |
| Lexing.Lexer.SkipWhitespace | lexer.py:32-34 | the cursor ends at the end of the whitespace run |
| Lexing.Lexer.Id | lexer.py:36-56 | the cursor passes the letter run; the result is the length error or the keyword/identifier token for that run |
| Lexing.Lexer.Integer | lexer.py:129-135 | the cursor passes the digit run; the token's value is that run in base 10 |
| Lexing.Lexer.GetNextToken | lexer.py:58-126 | the token, or the error, and the new cursor are those of `Scan` from the old cursor |
| Lexing.Lexer.Dispatch | lexer.py:64-123 | the same as `GetNextToken`, on a character that is not whitespace |
| Lexing.Lexer.Bracket | lexer.py:102-123 | a bracket, brace, ';' or unknown character gives `Scan`'s token and cursor |
| Lexing.Lexer.Symbol | lexer.py:70-123 | an operator, punctuation or unknown character gives `Scan`'s token and cursor |
| Grammar.Peek | parser.py:175-184 | succeeds exactly when the token after the current one lexes, and gives that token's kind |
| Grammar.Eat | parser.py:111-116 | succeeds exactly when the current kind is `k` (and the next token lexes); it then moves to the next token, and otherwise fails with "expected k, got …" |
| Grammar.Variable | parser.py:161-164 | a Var node carrying the current IDENTIFIER's text |
| Grammar.Factor | parser.py:118-138 | an expression node, built over recognised characters only; what it builds is stated by `GrammarFacts.FactorShaped`, `ParenthesesGroup` and the unary lemmas |
| Grammar.TermRest | parser.py:142-151 | an expression node; the state only moves forward; the tree it builds is stated by `GrammarFacts.TermRestShaped` |
| Grammar.Term | parser.py:140-151 | an expression node; the state only moves forward; the tree it builds is stated by `GrammarFacts.TermShaped` |
| Grammar.ExprRest | parser.py:155-159 | an expression node; the state only moves forward; the tree it builds is stated by `GrammarFacts.ExprRestShaped` |
| Grammar.Expr | parser.py:153-159 | an expression node; the state only moves forward; the tree it builds is stated by `GrammarFacts.ExprShaped` |
| Grammar.AssignmentStatement | parser.py:166-173 | an Assign node named by the current IDENTIFIER's text, after which comes ASSIGN, and whose right side is the expression parsed after the '=' |
| Grammar.IfThenStatement | parser.py:82-93 | a well-formed statement in which every `else` belongs to the innermost `if`, and an open `if` is never followed by `else` |
| Grammar.IfThenAfterCondition | parser.py:85-93 | the same invariant as `IfThenStatement`, from the 'then' onwards |
| Grammar.ElsePart | parser.py:88-93 | an 'else' makes an IfThenElse with this condition and true branch; any other token gives an IfThen and consumes nothing |
| Grammar.WhileStatement | parser.py:60-80 | a well-formed statement in which every `else` belongs to the innermost `if` |
| Grammar.WhileBody | parser.py:64-80 | a While node with the parsed condition |
| Grammar.Block | parser.py:66-78 | well-formed body statements that extend those already parsed, stopping on a '}' |
| Grammar.BlockSeparator | parser.py:70-77 | '}' ends the body with the statements so far; ';' continues it with `Block` after the ';'; any other token is the separator error naming that token |
| Grammar.Statement | parser.py:200-211 | a well-formed statement in which every `else` belongs to the innermost `if` |
| Grammar.StatementList | parser.py:186-199 | between 1 and 100 well-formed statements, not followed by ';' |
| Grammar.StatementListRest | parser.py:191-199 | the statements parsed so far are a prefix of the result, which has at most 100, and the list is not followed by ';' |
| Grammar.ListItem | parser.py:192-198 | the same invariant as `StatementListRest`, after a ';' |
| Grammar.ParseFrom | parser.py:215-219 | a successful parse has 1 to 100 statements and every character from the start to the end of the line is recognised |
| Grammar.Parse | parser.py:56-58 | a successful parse has 1 to 100 statements, and every character of the line is one the lexer knows |
| GrammarFacts.UnaryPlusTransparent | parser.py:120-123 | a unary '+' gives the factor after it unchanged |
| GrammarFacts.UnaryMinusWraps | parser.py:124-127 | a unary '-' wraps the factor after it in UnaryOp |
| GrammarFacts.ParenthesesGroup | parser.py:131-135 | '(' expr ')' gives the inner node; a missing ')' fails on the token found instead |
| GrammarFacts.AssignmentNeedsAssignNext | parser.py:205-209 | an identifier starts an assignment exactly when the next token is ASSIGN, and an expression otherwise |
| GrammarFacts.HundredFirstStatementRefused | parser.py:193-196 | with 100 statements parsed, a further statement is refused before it is parsed |
| GrammarFacts.TrailingSemicolonAccepted | parser.py:191-193 | a ';' right before EOF ends the list without adding a statement |
| GrammarFacts.BodyNeedsSeparator | parser.py:70-77 | in a body, any token other than ';' or '}' after a statement is the separator error |
| GrammarFacts.ParseNeedsEof | parser.py:215-219 | parse succeeds exactly when the statement list does and EOF follows it, and then returns that list |
| GrammarFacts.ElseBelongsToThisIf | parser.py:88-91 | an 'else' after the true statement makes this `if` an IfThenElse with the statement after the 'else' |
| GrammarFacts.FactorShaped | parser.py:118-129 | without parentheses, a factor is a number, a variable, or a negated factor |
| GrammarFacts.TermRestShaped | parser.py:142-151 | the `* /` loop extends a left-leaning chain of factors |
| GrammarFacts.TermShaped | parser.py:140-151 | without parentheses, a term is a left-leaning chain of factors joined by `* /` |
| GrammarFacts.ExprRestShaped | parser.py:155-159 | the `+ - > < ==` loop extends a left-leaning chain of terms |
| GrammarFacts.ExprShaped | parser.py:153-159 | without parentheses, an expression is a left-leaning chain of terms joined by `+ - > < ==`: `* /` bind tighter and every operator associates to the left |
| GrammarFacts.OtherGroupingsExcluded | parser.py:140-159 | right-leaning chains and a sum under a product are not shapes a line without parentheses parses to |
| ParseExamples.Grouped | parser.py:131-135 | "(3+4)*2" parses as (3 + 4) * 2 |
| ParseExamples.Precedence | parser.py:140-159 | "3+4*2" parses as 3 + (4 * 2) |
| ParseExamples.FlatLevel | parser.py:153-159 | "1<2+3" parses as (1 < 2) + 3: one left-associative level for `+ - > < ==` |
| ParseExamples.TrailingSemicolon | parser.py:186-199 | "7;" parses as the single statement 7 |
| Parsing.Parser.Init | parser.py:56-58 | the parser holds the lexer and its first token |
| Parsing.Parser.Create | parser.py:56-58 | a lexer error on the first token fails construction; otherwise the new parser is valid at the lexer's old cursor |
| Parsing.Parser.Eat | parser.py:111-116 | the new state is that of `Grammar.Eat`; a mismatch changes neither the token nor the lexer cursor |
| Parsing.Parser.Factor | parser.py:118-138 | result and new state are those of `Grammar.Factor` |
| Parsing.Parser.Term | parser.py:140-151 | result and new state are those of `Grammar.Term` |
| Parsing.Parser.Expr | parser.py:153-159 | result and new state are those of `Grammar.Expr` |
| Parsing.Parser.Variable | parser.py:161-164 | result and new state are those of `Grammar.Variable` |
| Parsing.Parser.AssignmentStatement | parser.py:166-173 | result and new state are those of `Grammar.AssignmentStatement` |
| Parsing.Parser.Lookahead | parser.py:175-184 | the kind of the next token, with the lexer's cursor and `current_char` put back |
| Parsing.Parser.IfThenStatement | parser.py:82-93 | result and new state are those of `Grammar.IfThenStatement` |
| Parsing.Parser.WhileStatement | parser.py:60-80 | result and new state are those of `Grammar.WhileStatement` |
| Parsing.Parser.Body | parser.py:66-79 | the body and the state at its '}' are those of `Grammar.Block` |
| Parsing.Parser.BodyItem | parser.py:67-77 | one statement and its separator, keeping `Grammar.Block`'s result unchanged |
| Parsing.Parser.Statement | parser.py:200-211 | result and new state are those of `Grammar.Statement` |
| Parsing.Parser.StatementList | parser.py:186-199 | result and new state are those of `Grammar.StatementList` |
| Parsing.Parser.ListRound | parser.py:191-198 | one ';' round of the loop, keeping `Grammar.StatementListRest`'s result unchanged |
| Parsing.Parser.Parse | parser.py:215-219 | the result is `ParseFrom` from the parser's state |
| Semantics.AsInt | interpreter.py:61-83 | an int is its own number; True is 1 and False is 0 |
| Semantics.TruthyIsNonZero | interpreter.py:38-47 | None is never a true condition; any other value is true exactly when its number is not 0 |
| Semantics.CheckOverflow | interpreter.py:8-11 | passes exactly the values in ±(2^31-1); anything else is the overflow error |
| Semantics.FloorDiv | interpreter.py:81 | the quotient rounded toward negative infinity, for either sign of the divisor |
| Semantics.Apply | interpreter.py:61-83 | comparisons give a bool and print nothing; arithmetic values are in range; None exactly for `/` by 0 (or False), which prints one message; the only error is overflow; which value each operator gives is stated by `ApplyValue` |
| Semantics.ApplyValue | interpreter.py:61-83 | `+ - *` give the sum, difference and product of the operands (bools as 1 and 0) passed through `CheckOverflow`, so an out-of-range result is the overflow error; `/` by a non-zero divisor gives `FloorDiv` passed through `CheckOverflow`; `> < ==` give the result of that comparison of the two numbers |
| Semantics.Eval | interpreter.py:52-96 | a value other than None printed nothing; the only errors are overflow and negating None; arithmetic results are in range; comparisons give bools; the value of a BinOp is given by `Combine` and `Apply`, that of a negation by `NegationValue` |
| Semantics.Combine | interpreter.py:54-83 | an error on the right propagates; a None operand gives None; messages from both sides are kept in order; two operands with values give `Apply`'s result |
| Semantics.EvalIn | interpreter.py:90-96 | evaluating an expression leaves the store unchanged and only appends messages |
| Semantics.ExecAssign | interpreter.py:98-105 | a 51st name is refused before its right side is evaluated, and the state is unchanged; on success the name is bound, every other binding is kept, the key set grows by the name only, at most 50 names stay at most 50, and the result is None |
| Semantics.Exec | interpreter.py:13-17 | an assignment or a `while` gives None; fuel and growth are stated by `ExecFuel` and `ExecGrows` |
| Semantics.Loop | interpreter.py:37-39 | a `while` loop gives None; fuel and growth are stated by `LoopFuel` and `LoopGrows` |
| Semantics.ExecList | interpreter.py:31-35 | an empty list gives `last` and changes nothing; a list ending in an assignment or a loop gives None |
| Semantics.ExecListSnoc | interpreter.py:31-35 | running one more statement after a list that finished is running that statement from the list's state: the list's value is its last statement's |
| Semantics.RunStatements | interpreter.py:107-114 | the collected values are all non-None, and there are at most as many as statements; which values, in which order, is stated by `RunStatementsSnoc` |
| Semantics.RunStatementsSnoc | interpreter.py:107-114 | one more statement after a line that finished either raises, with its exception, or appends its value to the collected values when it is not None and nothing otherwise; so the values are those of the statements, in source order, with the None ones dropped |
| Semantics.ValuelessStatementAddsNothing | interpreter.py:110-113 | an assignment or a `while` at the end of a line leaves the collected values as they were |
| Semantics.EvalFrame | interpreter.py:90-96 | stores that agree on an expression's variables give it the same value and messages |
| Semantics.DiagnosticsExplained | interpreter.py:75-96 | every message is a division by zero or an undefined variable that occurs in the expression |
| Semantics.NoneOperandGivesNone | interpreter.py:54-59 | a None operand makes any BinOp, comparisons included, None without raising |
| Semantics.DivisionByZeroIsSoft | interpreter.py:75-79 | a zero divisor prints one message and gives None |
| Semantics.AssignThenRead | interpreter.py:103-104 | after an assignment, reading the name gives the right side's value (None included) without a message |
| Semantics.AssignAtCapacity | interpreter.py:98-102 | with 50 names, a new name is refused and an existing one is updated, leaving 50 |
| Semantics.NegateNoneRaises | interpreter.py:19-22 | negating None raises and keeps the operand's messages |
| Semantics.NegationValue | interpreter.py:19-22 | negating an operand with a value other than None gives the negated number (a bool as 1 or 0) and keeps the operand's messages |
| Semantics.OverflowIsFatal | interpreter.py:8-11 | `x = 2147483647 + 1`, when `x` may be bound, raises the overflow error, binds nothing and prints nothing |
| Semantics.NegationUnchecked | interpreter.py:19-22 | negation is not overflow-checked: -2147483648 comes out of the literal 2147483648 |
| Semantics.StatementsWithoutValue | interpreter.py:37-44 | assignments, loops and `if`s with a false condition give None |
| Semantics.WhileFalseCondition | interpreter.py:37-39 | a false condition ends the loop at once, whatever the fuel |
| Semantics.ExecFuel | interpreter.py:37-39 | a statement that did not run out of fuel gives the same result and state with more fuel |
| Semantics.LoopFuel | interpreter.py:37-39 | the same for a `while` loop |
| Semantics.ExecListFuel | interpreter.py:31-35 | the same for a statement list |
| Semantics.ExecGrows | interpreter.py:98-105 | a statement never removes a variable or a message, and keeps a store of at most 50 at most 50 |
| Semantics.LoopGrows | interpreter.py:37-39 | the same for a `while` loop |
| Semantics.ExecListGrows | interpreter.py:31-35 | the same for a statement list |
| Semantics.RunGrows | interpreter.py:107-114 | the same for the whole line, whether it finishes or stops at an exception |
| RunExamples.PrecedenceRun | interpreter.py:107-114 | the line "3+4*2" collects the single value 11, in any store |
| RunExamples.GroupedRun | interpreter.py:107-114 | the line "(3+4)*2" collects the single value 14, in any store |
| RunExamples.SingleValue | interpreter.py:107-114 | a line of one expression with a value other than None collects exactly that value |
| Interpreting.Interpreter.constructor | interpreter.py:26-29 | GLOBAL_SCOPE starts empty |
| Interpreting.Interpreter.VisitExpr | interpreter.py:13-17 | result and new state are those of `EvalIn` |
| Interpreting.Interpreter.VisitVar | interpreter.py:90-96 | a defined name gives its value; an undefined one prints a warning and gives None |
| Interpreting.Interpreter.VisitUnaryOp | interpreter.py:19-22 | result and new state are those of `EvalIn` on the UnaryOp |
| Interpreting.Interpreter.VisitBinOp | interpreter.py:52-83 | result and new state are those of `EvalIn` on the BinOp |
| Interpreting.Interpreter.Operate | interpreter.py:61-83 | the result and the appended messages are `Apply`'s; the store is unchanged |
| Interpreting.Interpreter.Compare | interpreter.py:69-74 | visiting the operands again and comparing gives `Apply`'s bool and changes nothing |
| Interpreting.Interpreter.VisitAssign | interpreter.py:98-105 | result and new state are those of `ExecAssign` |
| Interpreting.Interpreter.Visit | interpreter.py:13-17 | result and new state are those of `Exec` |
| Interpreting.Interpreter.VisitIfThen | interpreter.py:41-44 | result and new state are those of `Exec` on the IfThen |
| Interpreting.Interpreter.VisitIfThenElse | interpreter.py:46-50 | result and new state are those of `Exec` on the IfThenElse |
| Interpreting.Interpreter.VisitWhile | interpreter.py:37-39 | result and new state are those of `Loop` |
| Interpreting.Interpreter.VisitList | interpreter.py:31-35 | result and new state are those of `ExecList` from None |
| Interpreting.Interpreter.Interpret | interpreter.py:107-114 | a parse failure leaves the interpreter untouched; otherwise the collected values and the new state are those of `RunStatements` |
| Interpreting.Interpreter.VisitStatements | interpreter.py:109-114 | the collected values and the new state are those of `RunStatements` from no values |
| Interpreting.Interpreter.InterpretLine | main.py:18-21 | the same, for a whole line, in terms of `Grammar.Parse` |

## Left out

- The REPL in main.py: the prompt, the 1000-character limit, skipping empty lines, printing results and errors, and exit on EOF or interrupt. It is input/output glue. `InterpretLine` covers one line, and the interpreter object is kept across calls as main.py keeps it.
- InterpretLine: an empty line is the failure `EmptyText`. In the source, `Lexer('')` raises IndexError, and main.py never builds a lexer for an empty line.
- Printed output: the two warnings are recorded as `Diagnostic` values, in order. The text of the messages is not modelled, and neither is the dump of GLOBAL_SCOPE that `visit_Assign` prints.
- The reflective `getattr` dispatch and `generic_visit`: `match` over the syntax tree replaces them, and no node kind is missing.
- `Parser.comparison`, which is never called, and the write to `lexer.current_token` in `lookahead`, which nothing reads.
- Unicode: `isalpha`, `isdigit` and `isspace` are restricted to ASCII letters, digits and blanks, and `int()` to ASCII digits.
- Exception classes and messages: each failure is a distinct `Failure` value that carries the token kinds it names.
- Python's recursion limit (1000 frames by default): deeply nested input, such as 600 '-' before a number or a few hundred nested parentheses, makes the recursive parser or the recursive `visit` raise RecursionError in CPython, which main.py prints as an error. The model has no stack depth, so it parses and evaluates such lines.
- Termination of `while`: loops run under `fuel`, and `OutOfFuel` stands for a loop that has not finished yet.
- The state of the parser and lexer after a failure, including `lookahead` when the lexer fails: the source raises and the objects are abandoned, so the methods state only the failure.
- Parsing.Parser.Lookahead: the promise that `current_token` is unchanged is carried by its frame (`modifies lexer`), not by an `ensures` clause.
- Grammar.Term and Grammar.Expr: their own contracts state only that the result is an expression and that the state moves forward. The tree they build is stated by `GrammarFacts.TermShaped` and `GrammarFacts.ExprShaped` for lines without parentheses only; lines with parentheses are covered by `GrammarFacts.ParenthesesGroup` and the example `ParseExamples.Grouped`, not by a general lemma.
