/**
 * A reference semantics for the expressions the engine of pkg/calc is meant to
 * accept: a syntax tree of number literals, the four binary operators and
 * parentheses, written out with the usual precedence (`*` and `/` over `+` and
 * `-`) and left associativity, and its value computed by recursion on the tree.
 * The theorem at the end says that tokenizing, converting to postfix order and
 * running the stack machine on the text of such a tree gives exactly its value,
 * errors included.
 */
module CalcInfix {
  import opened Wrappers
  import Strconv
  import opened Calc

  /** An infix expression: a literal, `left op right`, or `( inner )`. */
  datatype Expr = Num(literal: string) | Bin(op: string, left: Expr, right: Expr) | Group(inner: Expr)

  /** The precedence of the outermost operator of `e`; literals and groups bind tightest. */
  function TopPrecedence(e: Expr): nat {
    match e
    case Num(_) => 3
    case Group(_) => 3
    case Bin(op, _, _) => Precedence(op)
  }

  /**
   * `e` is written exactly as the tokens show it: every literal is a run of
   * number characters that toRPN takes for a number, and a child of an
   * operator needs no parentheses, the left one binding at least as tightly
   * (left associativity) and the right one strictly more tightly.
   */
  predicate WellFormed(e: Expr) {
    match e
    case Num(lit) => IsRun(lit) && IsNumberToken(lit)
    case Group(x) => WellFormed(x)
    case Bin(op, l, r) =>
      && IsOperator(op) && WellFormed(l) && WellFormed(r)
      && Precedence(op) <= TopPrecedence(l) && Precedence(op) < TopPrecedence(r)
  }

  /** The tokens of `e` in written order. */
  function Infix(e: Expr): seq<string> {
    match e
    case Num(lit) => [lit]
    case Group(x) => ["("] + Infix(x) + [")"]
    case Bin(op, l, r) => Infix(l) + [op] + Infix(r)
  }

  /** The text of `e`, without spaces. */
  function Text(e: Expr): string {
    Concat(Infix(e))
  }

  /** The tokens of `e` with each operator after its operands. */
  function PostOrder(e: Expr): seq<string> {
    match e
    case Num(lit) => [lit]
    case Group(x) => PostOrder(x)
    case Bin(op, l, r) => PostOrder(l) + PostOrder(r) + [op]
  }

  /** The value of `e`: the left operand's error first, then the right one's, then a zero divisor. */
  function Value(ops: Operations, e: Expr): Result<real, CalcError>
    requires DivideDefined(ops)
  {
    match e
    case Num(lit) =>
      (match Strconv.ParseFloat(lit)
       case None => Err(InvalidNumber)
       case Some(v) => Ok(v))
    case Group(x) => Value(ops, x)
    case Bin(op, l, r) =>
      match Value(ops, l)
      case Err(err) => Err(err)
      case Ok(a) =>
        match Value(ops, r)
        case Err(err) => Err(err)
        case Ok(b) =>
          if op == "/" && b == 0.0 then Err(DivisionByZero)
          else if IsOperator(op) then Ok(Apply(ops, op, a, b))
          else Err(Malformed)
  }

  // ----------------------------------------------------- tokens of the text

  function First(ts: seq<string>): string requires ts != [] { ts[0] }

  function Final(ts: seq<string>): string requires ts != [] { ts[|ts| - 1] }

  lemma WellFormedTokensJoin(a: seq<string>, b: seq<string>)
    requires WellFormedTokens(a) && WellFormedTokens(b)
    requires a != [] && b != [] ==> !(IsRun(Final(a)) && IsRun(First(b)))
    ensures WellFormedTokens(a + b)
  {
    var ab := a + b;
    forall i | 0 <= i < |ab| - 1
      ensures !(IsRun(ab[i]) && IsRun(ab[i + 1]))
    {
      if i + 1 < |a| {
        assert ab[i] == a[i] && ab[i + 1] == a[i + 1];
      } else if i + 1 == |a| {
        assert ab[i] == Final(a) && ab[i + 1] == First(b);
      } else {
        assert ab[i] == b[i - |a|] && ab[i + 1] == b[i + 1 - |a|];
      }
    }
    forall i | 0 <= i < |ab|
      ensures IsRun(ab[i]) || IsSingle(ab[i])
    {
      if i < |a| { assert ab[i] == a[i]; } else { assert ab[i] == b[i - |a|]; }
    }
  }

  lemma SingleToken(t: string)
    requires t in {"(", ")", "+", "-", "*", "/"}
    ensures WellFormedTokens([t]) && IsSingle(t) && !IsRun(t)
  {
  }

  /** The tokens of a well-formed expression: runs and single characters, no runs side by side. */
  lemma {:induction false} InfixWellFormed(e: Expr)
    requires WellFormed(e)
    ensures Infix(e) != [] && WellFormedTokens(Infix(e))
  {
    match e
    case Num(lit) =>
    case Group(x) =>
      InfixWellFormed(x);
      SingleToken("(");
      SingleToken(")");
      WellFormedTokensJoin(["("], Infix(x));
      WellFormedTokensJoin(["("] + Infix(x), [")"]);
    case Bin(op, l, r) =>
      InfixWellFormed(l);
      InfixWellFormed(r);
      SingleToken(op);
      WellFormedTokensJoin(Infix(l), [op]);
      assert Final(Infix(l) + [op]) == op;
      WellFormedTokensJoin(Infix(l) + [op], Infix(r));
  }

  /** The text of `e` built directly from its parts. */
  function Render(e: Expr): string {
    match e
    case Num(lit) => lit
    case Group(x) => "(" + Render(x) + ")"
    case Bin(op, l, r) => Render(l) + op + Render(r)
  }

  /** Joining the tokens gives the text built from the parts. */
  lemma {:induction false} TextIsRender(e: Expr)
    ensures Text(e) == Render(e)
  {
    match e
    case Num(lit) =>
      assert Concat([lit]) == lit + Concat([]);
    case Group(x) =>
      TextIsRender(x);
      ConcatAppend(["("] + Infix(x), [")"]);
      ConcatAppend(["("], Infix(x));
      assert Concat(["("]) == "(" + Concat([]);
      assert Concat([")"]) == ")" + Concat([]);
    case Bin(op, l, r) =>
      TextIsRender(l);
      TextIsRender(r);
      ConcatAppend(Infix(l) + [op], Infix(r));
      ConcatAppend(Infix(l), [op]);
      assert Concat([op]) == op + Concat([]);
  }

  /** Tokenizing the text of a well-formed expression gives back its tokens. */
  lemma TokenizeText(e: Expr)
    requires WellFormed(e)
    ensures Tokenize(Text(e)) == Infix(e)
  {
    InfixWellFormed(e);
    TokenizeRoundTrip(Infix(e));
  }

  // ------------------------------------------------ the conversion of a tree

  /** The operators of `e` still on toRPN's stack after its last token: its right spine. */
  function Pending(e: Expr): seq<string> {
    match e
    case Num(_) => []
    case Group(_) => []
    case Bin(op, _, r) => [op] + Pending(r)
  }

  /** What toRPN has output for `e` after its last token. */
  function Emitted(e: Expr): seq<string> {
    match e
    case Num(lit) => [lit]
    case Group(x) => PostOrder(x)
    case Bin(_, l, r) => PostOrder(l) + Emitted(r)
  }

  /** Every pending operator is an operator binding at least as tightly as `e`'s outermost one. */
  lemma {:induction false} PendingOperators(e: Expr)
    requires WellFormed(e)
    ensures forall t :: t in Pending(e) ==> IsOperator(t) && Precedence(t) >= TopPrecedence(e)
  {
    match e
    case Num(_) =>
    case Group(_) =>
    case Bin(op, l, r) =>
      PendingOperators(r);
  }

  lemma {:induction false} ReversedCons(t: string, s: seq<string>)
    ensures Reversed([t] + s) == Reversed(s) + [t]
    decreases |s|
  {
    var ts := [t] + s;
    if s == [] {
      assert ts == [t] && Reversed([]) == [];
    } else {
      var init := s[..|s| - 1];
      assert ts[..|ts| - 1] == [t] + init && ts[|ts| - 1] == s[|s| - 1];
      ReversedCons(t, init);
      Assoc([s[|s| - 1]], Reversed(init), [t]);
    }
  }

  /** Emptying the pending operators completes the postfix form. */
  lemma {:induction false} EmittedThenPending(e: Expr)
    ensures Emitted(e) + Reversed(Pending(e)) == PostOrder(e)
  {
    match e
    case Num(_) =>
      assert Reversed(Pending(e)) == [];
    case Group(_) =>
      assert Reversed(Pending(e)) == [];
    case Bin(op, l, r) =>
      EmittedThenPending(r);
      ReversedCons(op, Pending(r));
      var p, m, q := PostOrder(l), Emitted(r), Reversed(Pending(r));
      assert Emitted(e) == p + m;
      assert Reversed(Pending(e)) == q + [op];
      assert PostOrder(e) == p + (m + q) + [op];
      Regroup(p, m, q, [op]);
  }

  lemma Regroup(p: seq<string>, m: seq<string>, q: seq<string>, z: seq<string>)
    ensures (p + m) + (q + z) == p + (m + q) + z
  {
  }

  /** Popping the top of a stack whose part from `k` on is `st.stack[k..]`. */
  lemma MoveTopSuffix(st: RPNState, k: nat)
    requires k < |st.stack|
    ensures var st1 := MoveTop(st);
      && st1.stack[..k] == st.stack[..k]
      && Reversed(st.stack[k..]) == [st.stack[|st.stack| - 1]] + Reversed(st1.stack[k..])
      && st1.answer + Reversed(st1.stack[k..]) == st.answer + Reversed(st.stack[k..])
  {
    var st1 := MoveTop(st);
    var top := st.stack[|st.stack| - 1];
    assert st.stack[k..] == st1.stack[k..] + [top];
    ReversedPush(st1.stack[k..], top);
    Assoc(st.answer, [top], Reversed(st1.stack[k..]));
  }

  /**
   * The operator branch pops exactly the tokens from position `k` up when they
   * bind at least at `p` and the one below does not.
   */
  lemma {:induction false} PopWhileAtLeastOver(st: RPNState, k: nat, p: nat)
    requires k <= |st.stack|
    requires forall i :: k <= i < |st.stack| ==> Precedence(st.stack[i]) >= p
    requires k == 0 || Precedence(st.stack[k - 1]) < p
    ensures PopWhileAtLeast(st, p) == RPNState(st.stack[..k], st.answer + Reversed(st.stack[k..]))
    decreases |st.stack|
  {
    if k < |st.stack| {
      var st1 := MoveTop(st);
      assert PopWhileAtLeast(st, p) == PopWhileAtLeast(st1, p);
      assert forall i :: 0 <= i < |st1.stack| ==> st1.stack[i] == st.stack[i];
      MoveTopSuffix(st, k);
      PopWhileAtLeastOver(st1, k, p);
    } else {
      assert st.stack[..k] == st.stack && st.stack[k..] == [];
    }
  }

  /** The ')' branch pops exactly the tokens above the '(' at position `k - 1`. */
  lemma {:induction false} PopToParenOver(st: RPNState, k: nat)
    requires 0 < k <= |st.stack| && st.stack[k - 1] == "("
    requires forall i :: k <= i < |st.stack| ==> st.stack[i] != "("
    ensures PopToParen(st) == RPNState(st.stack[..k], st.answer + Reversed(st.stack[k..]))
    decreases |st.stack|
  {
    if k < |st.stack| {
      var st1 := MoveTop(st);
      assert PopToParen(st) == PopToParen(st1);
      assert forall i :: 0 <= i < |st1.stack| ==> st1.stack[i] == st.stack[i];
      MoveTopSuffix(st, k);
      PopToParenOver(st1, k);
    } else {
      assert st.stack[..k] == st.stack && st.stack[k..] == [];
    }
  }

  lemma StepOpen(st: RPNState)
    ensures RPNFrom(st, ["("]) == RPNState(st.stack + ["("], st.answer)
  {
    ParensAreNotNumbers();
    assert ["("][1..] == [];
  }

  lemma StepClose(st: RPNState)
    ensures RPNFrom(st, [")"]) == (var s := PopToParen(st);
      if |s.stack| > 0 then RPNState(s.stack[..|s.stack| - 1], s.answer) else s)
  {
    ParensAreNotNumbers();
    assert [")"][1..] == [];
  }

  lemma StepOperator(st: RPNState, op: string)
    requires IsOperator(op)
    ensures RPNFrom(st, [op]) == (var s := PopWhileAtLeast(st, Precedence(op));
      RPNState(s.stack + [op], s.answer))
  {
    assert !LexLe("0", op);
    assert [op][1..] == [];
  }

  lemma StepNumber(st: RPNState, lit: string)
    requires IsNumberToken(lit)
    ensures RPNFrom(st, [lit]) == RPNState(st.stack, st.answer + [lit])
  {
    assert [lit][1..] == [];
  }

  /** Below-the-expression part of the stack: empty, or topped by something binding more loosely. */
  predicate LooserTop(stack: seq<string>, p: nat) {
    stack == [] || Precedence(stack[|stack| - 1]) < p
  }

  /**
   * Converting the tokens of `e` leaves its postfix form, minus the pending
   * operators, on the output and the pending operators on the stack; whatever
   * was below them is untouched.
   */
  lemma {:induction false} ConvertExpr(stack: seq<string>, answer: seq<string>, e: Expr)
    requires WellFormed(e) && LooserTop(stack, TopPrecedence(e))
    ensures RPNFrom(RPNState(stack, answer), Infix(e)) == RPNState(stack + Pending(e), answer + Emitted(e))
    decreases e, 2
  {
    match e
    case Num(lit) =>
      StepNumber(RPNState(stack, answer), lit);
      assert stack + [] == stack;
    case Group(x) =>
      ConvertGroup(stack, answer, x);
    case Bin(op, l, r) =>
      ConvertBin(stack, answer, op, l, r);
  }

  /** A stack `below + above`, seen from position `|below|`. */
  lemma StackSplit(below: seq<string>, above: seq<string>)
    ensures var full := below + above;
      && full[..|below|] == below && full[|below|..] == above
      && (forall i :: |below| <= i < |full| ==> full[i] == above[i - |below|])
      && (|below| > 0 ==> full[|below| - 1] == below[|below| - 1])
  {
  }

  lemma TopPrecedencePositive(e: Expr)
    requires WellFormed(e)
    ensures TopPrecedence(e) >= 1
  {
  }

  lemma {:induction false} ConvertGroup(stack: seq<string>, answer: seq<string>, x: Expr)
    requires WellFormed(x)
    ensures RPNFrom(RPNState(stack, answer), Infix(Group(x))) == RPNState(stack, answer + PostOrder(x))
    decreases Group(x), 1
  {
    var st0 := RPNState(stack, answer);
    var open := stack + ["("];
    RPNFromAppend(st0, ["("] + Infix(x), [")"]);
    RPNFromAppend(st0, ["("], Infix(x));
    StepOpen(st0);
    TopPrecedencePositive(x);
    ConvertExpr(open, answer, x);
    CloseGroup(stack, answer, x);
  }

  /** The closing ')' of a group outputs the operators still pending inside it and drops its '('. */
  lemma CloseGroup(stack: seq<string>, answer: seq<string>, x: Expr)
    requires WellFormed(x)
    ensures RPNFrom(RPNState(stack + ["("] + Pending(x), answer + Emitted(x)), [")"])
         == RPNState(stack, answer + PostOrder(x))
  {
    var open := stack + ["("];
    var st2 := RPNState(open + Pending(x), answer + Emitted(x));
    PendingOperators(x);
    StackSplit(open, Pending(x));
    forall i | |open| <= i < |st2.stack| ensures st2.stack[i] != "(" {
      assert st2.stack[i] in Pending(x);
    }
    PopToParenOver(st2, |open|);
    EmittedThenPending(x);
    Assoc(answer, Emitted(x), Reversed(Pending(x)));
    StepClose(st2);
    assert open[..|stack|] == stack;
  }

  lemma {:induction false} ConvertBin(stack: seq<string>, answer: seq<string>, op: string, l: Expr, r: Expr)
    requires WellFormed(Bin(op, l, r)) && LooserTop(stack, Precedence(op))
    ensures RPNFrom(RPNState(stack, answer), Infix(Bin(op, l, r)))
         == RPNState(stack + ([op] + Pending(r)), answer + (PostOrder(l) + Emitted(r)))
    decreases Bin(op, l, r), 1
  {
    RPNFromAppend(RPNState(stack, answer), Infix(l) + [op], Infix(r));
    ConvertLeftOperand(stack, answer, op, l, r);
    ConvertExpr(stack + [op], answer + PostOrder(l), r);
    Assoc(stack, [op], Pending(r));
    Assoc(answer, PostOrder(l), Emitted(r));
  }

  /** The left operand and the operator after it: the operand is emitted, the operator waits on the stack. */
  lemma {:induction false} ConvertLeftOperand(stack: seq<string>, answer: seq<string>, op: string, l: Expr, r: Expr)
    requires WellFormed(Bin(op, l, r)) && LooserTop(stack, Precedence(op))
    ensures RPNFrom(RPNState(stack, answer), Infix(l) + [op]) == RPNState(stack + [op], answer + PostOrder(l))
    decreases Bin(op, l, r), 0
  {
    var st0 := RPNState(stack, answer);
    RPNFromAppend(st0, Infix(l), [op]);
    ConvertExpr(stack, answer, l);
    OperatorAfterOperand(stack, answer, op, l);
  }

  /** An operator after its left operand outputs the operators pending in it and takes their place. */
  lemma OperatorAfterOperand(stack: seq<string>, answer: seq<string>, op: string, l: Expr)
    requires IsOperator(op) && WellFormed(l) && Precedence(op) <= TopPrecedence(l) && LooserTop(stack, Precedence(op))
    ensures RPNFrom(RPNState(stack + Pending(l), answer + Emitted(l)), [op]) == RPNState(stack + [op], answer + PostOrder(l))
  {
    var st1 := RPNState(stack + Pending(l), answer + Emitted(l));
    PendingOperators(l);
    StackSplit(stack, Pending(l));
    forall i | |stack| <= i < |st1.stack| ensures Precedence(st1.stack[i]) >= Precedence(op) {
      assert st1.stack[i] in Pending(l);
    }
    PopWhileAtLeastOver(st1, |stack|, Precedence(op));
    EmittedThenPending(l);
    Assoc(answer, Emitted(l), Reversed(Pending(l)));
    StepOperator(st1, op);
  }

  /** toRPN turns the tokens of a well-formed expression into its postfix form. */
  lemma PostfixOfInfix(e: Expr)
    requires WellFormed(e)
    ensures Postfix(Infix(e)) == PostOrder(e)
  {
    ConvertExpr([], [], e);
    assert [] + Pending(e) == Pending(e) && [] + Emitted(e) == Emitted(e);
    PopAllPool(RPNState(Pending(e), Emitted(e)));
    EmittedThenPending(e);
  }

  // ------------------------------------------------ the evaluation of a tree

  /** The stack machine evaluates the postfix form of `e` to `e`'s value and pushes it. */
  lemma {:induction false} EvaluatePostOrder(ops: Operations, e: Expr, rest: seq<string>, stack: seq<real>)
    requires DivideDefined(ops) && WellFormed(e)
    ensures Evaluate(ops, PostOrder(e) + rest, stack) ==
      match Value(ops, e)
      case Err(err) => Err(err)
      case Ok(v) => Evaluate(ops, rest, stack + [v])
  {
    match e
    case Num(lit) =>
      ParensAreNotNumbers();
      assert !IsOperator(lit) by {
        assert IsRun(lit) && IsNumberChar(lit[0]);
      }
      assert ([lit] + rest)[0] == lit && ([lit] + rest)[1..] == rest;
    case Group(x) =>
      EvaluatePostOrder(ops, x, rest, stack);
    case Bin(op, l, r) =>
      assert PostOrder(e) + rest == PostOrder(l) + (PostOrder(r) + ([op] + rest));
      EvaluatePostOrder(ops, l, PostOrder(r) + ([op] + rest), stack);
      if Value(ops, l).Ok? {
        var a := Value(ops, l).value;
        EvaluatePostOrder(ops, r, [op] + rest, stack + [a]);
        if Value(ops, r).Ok? {
          EvaluateOperator(ops, op, a, Value(ops, r).value, rest, stack);
        }
      }
  }

  /** An operator applied to the two values on top of the stack. */
  lemma EvaluateOperator(ops: Operations, op: string, a: real, b: real, rest: seq<string>, stack: seq<real>)
    requires DivideDefined(ops) && IsOperator(op)
    ensures Evaluate(ops, [op] + rest, stack + [a] + [b]) ==
      if op == "/" && b == 0.0 then Err(DivisionByZero) else Evaluate(ops, rest, stack + [Apply(ops, op, a, b)])
  {
    var s := stack + [a] + [b];
    assert s[..|s| - 2] == stack && s[|s| - 1] == b && s[|s| - 2] == a;
    assert ([op] + rest)[0] == op && ([op] + rest)[1..] == rest;
  }

  /**
   * The engine computes the value of every well-formed expression from its
   * text: the result or the error is the one the tree prescribes.
   */
  lemma CalculationOfText(ops: Operations, e: Expr)
    requires DivideDefined(ops) && WellFormed(e)
    ensures Calculation(ops, Text(e)) == Value(ops, e)
  {
    TokenizeText(e);
    PostfixOfInfix(e);
    EvaluatePostOrder(ops, e, [], []);
    assert PostOrder(e) + [] == PostOrder(e);
  }

  /** The same holds when spaces are scattered through the text. */
  lemma CalculationWithSpaces(ops: Operations, s: string, e: Expr)
    requires DivideDefined(ops) && WellFormed(e) && RemoveSpaces(s) == Text(e)
    ensures Calculation(ops, s) == Value(ops, e)
  {
    SpacesIgnored(s);
    CalculationOfText(ops, e);
  }
}
