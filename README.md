# Distributed arithmetic calculator: a verified model of its core

GOCACL_DISTRIBUTED evaluates arithmetic expressions by splitting them into
single operations that remote agents compute. This project models three
pieces of it in Dafny and proves properties of the model:

- **The expression engine** (`pkg/calc/calc.go`), in module `Calc`:
  - `splitExpression`, `toRPN` and `Operations.Calc` are imperative methods
    (`Calc.SplitExpression`, `Calc.ToRPN`, `Calc.Calc`), each proved equal to
    a recursive specification function that follows its loop step by step
    (`Tokenize`, `Postfix`, `Evaluate` / `Step`).
  - The properties of the engine are lemmas about those functions: what the
    tokenizer keeps and how it splits; what the postfix conversion keeps,
    orders and drops; which errors the stack machine reports, and why.
  - `Operations` is a record of four functions. `divide` is a partial arrow
    that refuses a zero divisor, which models the panic of
    `NewOperationsDefault`. The engine is proved never to call it with one.
- **A reference semantics** (module `CalcInfix`): a syntax tree with the usual
  precedence and left associativity, and its value by recursion.
  `CalcInfix.CalculationOfText` proves that running the engine on the text of
  any well-formed tree gives exactly the tree's value, errors included. A
  well-formed tree's literals are the runs that `toRPN`'s string comparison
  takes for numbers: those starting with '0'..'8', and "9" itself. Trees with
  literals such as "90", "9.5" or ".5" are outside that theorem; those texts
  are covered only by the examples `CalcExamples.CalcNinety` and
  `CalcExamples.CalcNinePointFive`. The
  test expectations of `pkg/calc/calc_test.go` are proved through it in
  `CalcExamples`.
- **The agent's arithmetic** (`performTask` in `internal/agent/agent.go`): the
  function `Agent.PerformTask`.
- **The orchestrator's registry** (`internal/orchestrator/logic.go`): the
  class `Orchestrator.DistributedCalculator`.
  - It has the four data fields of the Go struct (the mutex and the database
    handle are left out). `taskBusy` is a set, since the
    code only ever stores `true`. Each result channel is a one-shot `Slot`:
    `Waiting | Delivered(v) | Consumed`.
  - Methods model `createNewTask`, `calculate`, `saveResult`,
    `GetExpressions`, `GetExpressionByID`, `GetTask`, `GetTasks` and
    `PostTaskResult`.
  - The end-to-end result is `Orchestrator.DistributedCalculator.RunCalculation`.
    It runs `calculate` sequentially: every arithmetic step is registered as a
    task, claimed by an agent, answered by `performTask`, posted and received.
    The record of the expression is then proved to end as the package-level
    `Calc` of the same text would leave it.

`Strconv` models the two Go parsers the core calls: `ParseFloat` on the
engine's tokens and `ParseInt(s, 10, 64)` on the configured operation times.
`Schemas` holds one datatype per record of `internal/orchestrator/schemas.go`.

Values are exact `real`s. ids come as parameters, and the environment is a
map. A Go map iteration, whose order is unspecified, is a nondeterministic
choice (`:|`).

The code behaves as follows, and so does the model:
- A reported task is never removed: nothing in `logic.go` deletes from
  `tasks`, `taskBusy` or `resultChans`.
- A second report for the same id blocks forever while holding the mutex; it
  does not fail with NotFound. This is `PostOutcome.BlocksForever`. The
  deferred unlock (`internal/orchestrator/logic.go:218-224`) then never runs,
  so every later `GetTask`, `GetTasks`, `saveResult` and `createNewTask` blocks
  too: this outcome ends the registry's life, although the model's object
  stays usable after it.
- An unmatched `(` is not dropped. `toRPN` outputs it at the end
  (`pkg/calc/calc.go:78-81`), and the stack machine then rejects it as an
  invalid number.
- An operation time out of the int64 range is clamped to the nearest bound
  (`internal/orchestrator/logic.go:55` ignores the range error). A digit that
  takes the value past the uint64 range is reported before any later
  character is looked at, so "18446744073709551616x" also reads as the upper
  bound. Any other syntax error reads as 0.

The comments at `pkg/calc/calc.go:116` and `:165`, and the second `TestCalc`
(`pkg/calc/calc_test.go:197`), give 20 for `"2+2*(3+3*(1+2))"`. The code
yields 26, as the first `TestCalc` expects (`pkg/calc/calc_test.go:139`).
`CalcExamples.CalcNested` proves 26.

## Model

| member | source | states |
|---|---|---|
| Strconv.ParseFloatSucceedsIff | pkg/calc/calc.go:148-151 | the value parse succeeds exactly on decimal literals (digits with at most one '.', at least one digit), so never on a token holding ',' |
| Strconv.ParseFloatDigits | pkg/calc/calc.go:148 | a string of digits parses to its integer value |
| Strconv.ParseIntFormatInt | internal/orchestrator/logic.go:55 | reading back the decimal text of any int64 gives the same number |
| Strconv.ParseIntClamps | internal/orchestrator/logic.go:55 | a number beyond the int64 range reads as the nearest bound, on both sides |
| Strconv.ParseIntSyntaxError | internal/orchestrator/logic.go:55 | a text with no digit after the sign, or with a non-digit reached while the digits before it fit in a uint64, reads as 0 (the ignored error) |
| Strconv.ParseIntRangeBeforeSyntax | internal/orchestrator/logic.go:55 | a number past the uint64 range followed by a non-digit reads as the int64 bound of its sign: the range error comes before the syntax error |
| Calc.SplitExpression | pkg/calc/calc.go:13-31 | the loop returns exactly the tokens `Tokenize` specifies for the input |
| Calc.TokenizeConcat | pkg/calc/calc.go:16-30 | the tokens joined together are the input with every ' ' removed |
| Calc.TokenizeWellFormed | pkg/calc/calc.go:17-25 | every token is a non-empty run of `0-9 . ,` or a single other non-space character, and no two runs are adjacent |
| Calc.TokenizeRoundTrip | pkg/calc/calc.go:13-31 | tokenizing the join of any well-formed token sequence gives that sequence back |
| Calc.SpacesIgnored | pkg/calc/calc.go:19 | the input's tokens are the tokens of the input without spaces; a space never ends a number run |
| Calc.TokenizeLength | pkg/calc/calc.go:14-15 | there are never more tokens than characters |
| Calc.TokenizeCountsParens | pkg/calc/calc.go:19-24 | every '(' and every ')' of the text becomes a token of its own, with the counts preserved |
| Calc.Precedence | pkg/calc/calc.go:36-49 | only the four operators have a precedence above 0, at most 2, and '*' and '/' bind tighter than '+' and '-' |
| Calc.NumberTokenShape | pkg/calc/calc.go:58 | the string comparison accepts a token as a number exactly when it starts with '0'..'8' or is "9" |
| Calc.ToRPN | pkg/calc/calc.go:53-83 | the loop and its inner pop loops return exactly the tokens `Postfix` specifies |
| Calc.PostfixFlow | pkg/calc/calc.go:56-82 | the output has no ')', keeps the number tokens in input order, permutes the non-parenthesis tokens and adds nothing |
| Calc.PostfixHasNoCloseParen | pkg/calc/calc.go:62-69 | no ')' ever reaches the output |
| Calc.PostfixKeepsNumberOrder | pkg/calc/calc.go:58-59 | the tokens taken for numbers appear in the output in their input order |
| Calc.PostfixPermutesNonParens | pkg/calc/calc.go:56-82 | the non-parenthesis tokens of the output are a permutation of those of the input |
| Calc.PostfixLength | pkg/calc/calc.go:53-83 | the output is a sub-multiset of the input, so no longer than it |
| Calc.PostfixKeepsUnclosedParen | pkg/calc/calc.go:78-81 | with more '(' than ')', some '(' is flushed into the output |
| Calc.MessagesDistinct | pkg/calc/calc.go:126-150 | the three error messages are pairwise distinct, so the message identifies the error |
| Calc.DefaultOps | pkg/calc/calc.go:94-112 | the default operations accept every non-zero divisor |
| Calc.DefaultOpsArithmetic | pkg/calc/calc.go:96-110 | the default operations are exact +, -, * and, for a non-zero divisor, / |
| Calc.EvaluateStep | pkg/calc/calc.go:122-153 | the stack machine is its per-token steps in sequence: an error stops it, otherwise it continues from the new stack |
| Calc.StepOk | pkg/calc/calc.go:124-152 | a successful step saw an operator with two operands (and left one fewer value) or a parsable number (and left one more) |
| Calc.StepValid | pkg/calc/calc.go:124-152 | an operator with two operands, or a parsable number, always steps, unless it is '/' with divisor 0 |
| Calc.Calc | pkg/calc/calc.go:117-161 | the method returns the value or the error of `Calculation` (value 0 on error) |
| Calc.CalcDefault | pkg/calc/calc.go:166-168 | package-level Calc is Operations.Calc with the default operations |
| Calc.EvaluateOkIsBalanced | pkg/calc/calc.go:122-160 | a successful evaluation saw only operators and parsable numbers, every operator found two operands, and one value was left |
| Calc.BalancedEvaluates | pkg/calc/calc.go:122-160 | conversely, on such a balanced sequence the only possible error is a division by zero, and without '/' there is none |
| Calc.EvaluateRejectsInvalid | pkg/calc/calc.go:147-151 | a token that is neither an operator nor a parsable number makes the evaluation fail |
| Calc.UnclosedParenFails | pkg/calc/calc.go:78-151 | a text with more '(' than ')' always fails: the leftover '(' reaches the stack machine, which cannot parse it |
| CalcInfix.TokenizeText | pkg/calc/calc.go:13-31 | the text of a well-formed tree tokenizes to its infix tokens |
| CalcInfix.PostfixOfInfix | pkg/calc/calc.go:53-83 | the conversion turns the infix tokens of a well-formed tree into its post-order: precedence and left associativity as the tree states them |
| CalcInfix.EvaluatePostOrder | pkg/calc/calc.go:122-153 | running the stack machine on a tree's post-order pushes the tree's value, or stops with its error |
| CalcInfix.CalculationOfText | pkg/calc/calc.go:117-161 | the engine computes the value of every well-formed tree from its text, errors included |
| CalcInfix.CalculationWithSpaces | pkg/calc/calc.go:16-19 | spaces anywhere in the text do not change the value |
| CalcExamples.TokensSum | pkg/calc/calc_test.go:14-16 | "2+2" tokenizes to 2, +, 2 |
| CalcExamples.TokensGroupedSum | pkg/calc/calc_test.go:19-21 | "2*(3+4)" tokenizes to 2, *, (, 3, +, 4, ) |
| CalcExamples.TokensNested | pkg/calc/calc_test.go:24-26 | "2+2*(3+3*(1+2))" tokenizes to its fifteen tokens |
| CalcExamples.PrecedenceTable | pkg/calc/calc_test.go:53-67 | '+' has precedence 1, '*' 2, '^' 0 |
| CalcExamples.PostfixSum | pkg/calc/calc_test.go:87-89 | 2 + 2 converts to 2 2 + |
| CalcExamples.PostfixGroupedSum | pkg/calc/calc_test.go:92-94 | 2 * ( 3 + 4 ) converts to 2 3 4 + * |
| CalcExamples.PostfixNested | pkg/calc/calc_test.go:97-99 | the nested expression converts to 2 2 3 3 1 2 + * + * + |
| CalcExamples.CalcSum | pkg/calc/calc_test.go:160 | "2+2" gives 4 |
| CalcExamples.CalcDifference | pkg/calc/calc_test.go:133 | "2-4" gives -2 |
| CalcExamples.CalcNested | pkg/calc/calc_test.go:139 | "2+2*(3+3*(1+2))" gives 26 |
| CalcExamples.CalcEmpty | pkg/calc/calc_test.go:159 | "" fails with the malformed-expression error |
| CalcExamples.CalcProductFirst | pkg/calc/calc_test.go:161 | "2*3+4" gives 10 |
| CalcExamples.CalcGroupedSum | pkg/calc/calc_test.go:162 | "2*(3+4)" gives 14 |
| CalcExamples.CalcZeroDivisor | pkg/calc/calc_test.go:163 | "2/0" fails with division by zero |
| CalcExamples.CalcUnclosed | pkg/calc/calc_test.go:164 | "2+2*(3+3*(1+2" fails |
| CalcExamples.CalcChain | pkg/calc/calc_test.go:165 | "2+2*3+3*1+2" gives 13 |
| CalcExamples.CalcSeventeen | pkg/calc/calc_test.go:166 | "2+2*3+3*(1+2)" gives 17 |
| CalcExamples.CalcEighteen | pkg/calc/calc_test.go:167 | "2+2*3+3*(1+2)+5/5" gives 18 |
| CalcExamples.CalcLateZeroDivisor | pkg/calc/calc_test.go:168 | "2+2*3+3*(1+2)+5/0" fails with division by zero |
| CalcExamples.CalcBackToSeventeen | pkg/calc/calc_test.go:169 | "2+2*3+3*(1+2)+5/5-1" gives 17 |
| CalcExamples.CalcProductSecond | pkg/calc/calc_test.go:195 | "2+2*2" gives 6 |
| CalcExamples.CalcGroupFirst | pkg/calc/calc_test.go:196 | "(2+2)*2" gives 8 |
| CalcExamples.CalcNinety | pkg/calc/calc.go:58 | "90" is not a number to the string comparison, so "90+1" ends with the malformed-expression error |
| CalcExamples.CalcNinePointFive | pkg/calc/calc.go:58-76 | "9.5" takes the operator branch, is still output, and parses to 9.5 |
| CalcExamples.CalcGroupedNinePointFive | pkg/calc/calc.go:71-75 | in "(9.5)" the precedence-0 token pops the '(' into the output, so the evaluation fails on an invalid number |
| CalcExamples.TokensAcrossSpace | pkg/calc/calc.go:19 | "2 3" is the single token "23" |
| CalcExamples.CalcComma | pkg/calc/calc.go:17 | a ',' joins the number run, and the run then fails to parse: "1,5" gives the invalid-number error |
| Agent.PerformTask | internal/agent/agent.go:63-90 | the answer keeps the task's id; for the four operators it is the default operation's result; for '/' with divisor 0 and for any other operation it is 0 |
| Agent.PerformTaskIgnoresIdAndTime | internal/agent/agent.go:67-83 | the result depends only on the operation and the two operands |
| Agent.PerformTaskTable | internal/agent/agent_test.go:28-74 | the expected results of the agent's test table, including the zero divisor and the unknown operation |
| Orchestrator.TimeVariable | internal/orchestrator/logic.go:44-54 | exactly the four operators have a configuration variable |
| Orchestrator.OperationTime | internal/orchestrator/logic.go:44-55 | a non-zero operation time comes only from the variable of one of the four operators, set in the environment |
| Orchestrator.OperationTimeConfigured | internal/orchestrator/logic.go:44-55 | a configured integer is the operation time of its operator |
| Orchestrator.OperationTimeDefault | internal/orchestrator/logic.go:44-55 | an unknown operator, an unset variable or a non-integer value gives operation time 0 |
| Orchestrator.DistributedOps | internal/orchestrator/logic.go:102-118 | the distributed divide callback accepts every non-zero divisor |
| Orchestrator.DistributedApply | internal/orchestrator/logic.go:102-117 | every callback the engine may call answers as the default operation does |
| Orchestrator.DistributedEvaluate | internal/orchestrator/logic.go:126 | the stack machine gives the same result with the distributed callbacks as with the default ones, on every input |
| Orchestrator.DistributedCalculation | internal/orchestrator/logic.go:102-126 | the distributed evaluation of any text equals package-level Calc of it; the panic at logic.go:113-115 is unreachable |
| Orchestrator.DistributedCalculator.constructor | internal/orchestrator/logic.go:30-38 | a new registry is empty and valid |
| Orchestrator.DistributedCalculator.RegisterTask | internal/orchestrator/logic.go:44-67 | the task with its configured time is added under the fresh id, with a waiting result slot, unclaimed; nothing else changes |
| Orchestrator.DistributedCalculator.ReceiveResult | internal/orchestrator/logic.go:68-69 | the receive takes the delivered value and uses up the slot |
| Orchestrator.DistributedCalculator.SaveResult | internal/orchestrator/logic.go:72-86 | an unknown id changes nothing; on error the status becomes the message and the result stays; on success the status is "ok" and the result is set; no other record changes |
| Orchestrator.DistributedCalculator.Calculate | internal/orchestrator/logic.go:93-100 | the record becomes "running" with result 0, every other record stays, and the id is returned at once |
| Orchestrator.DistributedCalculator.GetExpressions | internal/orchestrator/logic.go:160-168 | every record exactly once, each equal to the stored one |
| Orchestrator.DistributedCalculator.GetExpressionByID | internal/orchestrator/logic.go:171-181 | the stored record exactly when the id is present, otherwise ErrNotFound |
| Orchestrator.DistributedCalculator.GetTask | internal/orchestrator/logic.go:184-195 | ErrNotFound exactly when every task is claimed, and nothing changes then; otherwise an unclaimed task is returned and exactly its id is claimed; since claims only grow and stay distinct, no id is handed out twice |
| Orchestrator.DistributedCalculator.GetTasks | internal/orchestrator/logic.go:198-214 | every task exactly once, each with its stored fields and isBusy exactly when it is claimed; nothing changes |
| Orchestrator.DistributedCalculator.PostTaskResult | internal/orchestrator/logic.go:217-226 | ErrNotFound exactly when there is no slot; a waiting slot receives the value; otherwise the send never returns; claims are not checked and nothing is removed |
| Orchestrator.DistributedCalculator.CreateNewTask | internal/orchestrator/logic.go:40-70 | register, claim, answer, post and receive: the result is performTask's answer for the new task, which stays registered and claimed, with its slot used up |
| Orchestrator.DistributedCalculator.ApplyByTask | internal/orchestrator/logic.go:102-117 | one distributed callback returns the callback's value and runs exactly one task, under the next id: earlier tasks and slots are unchanged, the new task's slot is used up, and the claims gain that id |
| Orchestrator.DistributedCalculator.StepByTask | pkg/calc/calc.go:124-152 | one token of the engine's loop with the distributed callbacks computes the engine's step, and a task is run only for a valid operator step; nothing earlier in the registry changes |
| Orchestrator.DistributedCalculator.EvaluateByTasks | pkg/calc/calc.go:122-160 | the engine's loop with the distributed callbacks returns exactly what the stack machine specifies, after running the tasks of the first ids in order, with every earlier task, slot and claim kept |
| Orchestrator.DistributedCalculator.DistributedCalc | internal/orchestrator/logic.go:125-131 | ops.Calc with the distributed callbacks returns the value or error the engine specifies for the text, leaving the expression records alone; the registry only gains the tasks of the first ids, each claimed and with its slot used up |
| Orchestrator.DistributedCalculator.RunCalculation | internal/orchestrator/logic.go:93-136 | after calculate and its evaluation, the record under the id is "ok" with the package-level Calc value, or that Calc's error message with result 0; no other record changes; every earlier task and slot stays as it was, the claims are extended by the first ids, and those are the only new tasks, each with its slot used up |

## Left out

- Concurrency is not modelled: the mutex, the two goroutines of `calculate`
  with their channel (`logic.go:120-136`), and the blocking receive of
  `createNewTask`, which is modelled as a receive of a value already delivered.
  Operations run one after the other.
- Orchestrator.DistributedCalculator.CreateNewTask: requires that no other
  task is open (`taskBusy == tasks.Keys`), so the agent's `GetTask` claims the
  new task. With concurrent evaluations an agent may claim any open task.
- Orchestrator.DistributedCalculator.ReceiveResult: requires a delivered
  value. On an empty channel the Go receive blocks instead.
- Orchestrator.DistributedCalculator.RunCalculation: takes the task ids as a
  parameter of fresh, distinct strings (`Ready`) instead of `uuid.NewV7`. It
  needs at least as many as the text has characters. Through `Ready` it also
  requires that no other task is open (`taskBusy == tasks.Keys`), so each
  agent's `GetTask` claims the task just created. With concurrent
  evaluations an agent may claim any open task.
- The closures in `calculate` call the package-level `calculator` variable.
  The model uses the receiver of `calculate`, which is the same object when
  the server runs.
- `Calculate` (`logic.go:142-146`) only draws a UUID and calls `calculate`.
  The model's `Calculate` is `calculate` with the id as a parameter.
- Persistence is not modelled: `saveResult`'s `db.SetResultExpression` and its
  log line (`logic.go:87-90`), and `LoadFromDB` (`logic.go:149-157`).
- `os.Getenv` becomes a map parameter. `performTask`'s sleep for the
  operation time, and the agent's `Worker`, `getTask` and `sendResult` (gRPC
  polling), are I/O and are left out.
- Floating point: all values are exact reals, so rounding and the IEEE
  special values are not modelled.
- Strconv.ParseFloat: only the forms the tokenizer can produce are modelled.
  Those are runs of digits, '.' and ',', or single characters. Signs,
  exponents, hexadecimal, "Inf" and "NaN" never reach it as tokens. Go's
  parse also fails with a range error on a literal beyond the float64 range
  (for example "1" followed by 309 zeros), which `pkg/calc/calc.go:148-151`
  then reports as an invalid number. The model has exact reals and accepts
  such a literal with its exact value.
- Text is `seq<char>`. Go's `strings.Split(s, "")` splits a string into UTF-8
  runes, and its string comparison compares bytes. Both agree with the model
  on valid UTF-8 text. Invalid UTF-8 input is not modelled.
- Calc.DefaultOps: its contract states only that division is defined for
  non-zero divisors. The exact arithmetic is `Calc.DefaultOpsArithmetic`.
- The transport and auth layers: the HTTP and gRPC servers, and JWT.
- The database, the protobuf mirrors of the records, the JSON tags, and the
  web page.
