/**
 * The expected values of pkg/calc/calc_test.go, and the inputs on which the
 * engine's string-comparison number test and its parenthesis handling show,
 * as lemmas about the model. Each well-formed input is proved through its
 * syntax tree and the theorem of CalcInfix.
 */
module CalcExamples {
  import opened Wrappers
  import Strconv
  import opened Calc
  import opened CalcInfix

  function Add(l: Expr, r: Expr): Expr { Bin("+", l, r) }
  function Sub(l: Expr, r: Expr): Expr { Bin("-", l, r) }
  function Mul(l: Expr, r: Expr): Expr { Bin("*", l, r) }
  function Div(l: Expr, r: Expr): Expr { Bin("/", l, r) }

  /** A text written by a known tree is calculated to the tree's value. */
  lemma ByTree(e: Expr, s: string, v: Result<real, CalcError>)
    requires Render(e) == s && WellFormed(e) && Value(DefaultOps(), e) == v
    ensures Calculation(DefaultOps(), s) == v
  {
    TextIsRender(e);
    CalculationOfText(DefaultOps(), e);
  }

  /** A one-digit literal as a tree. */
  lemma DigitValue(d: char)
    requires Strconv.IsDigit(d)
    ensures Value(DefaultOps(), Num([d])) == Ok((d as int - '0' as int) as real)
  {
    Strconv.ParseFloatDigits([d]);
    assert [d][..0] == [];
  }

  lemma AddValue(l: Expr, r: Expr, a: real, b: real)
    requires Value(DefaultOps(), l) == Ok(a) && Value(DefaultOps(), r) == Ok(b)
    ensures Value(DefaultOps(), Add(l, r)) == Ok(a + b)
  {
    DefaultOpsArithmetic(a, b);
  }

  lemma SubValue(l: Expr, r: Expr, a: real, b: real)
    requires Value(DefaultOps(), l) == Ok(a) && Value(DefaultOps(), r) == Ok(b)
    ensures Value(DefaultOps(), Sub(l, r)) == Ok(a - b)
  {
    DefaultOpsArithmetic(a, b);
  }

  lemma MulValue(l: Expr, r: Expr, a: real, b: real)
    requires Value(DefaultOps(), l) == Ok(a) && Value(DefaultOps(), r) == Ok(b)
    ensures Value(DefaultOps(), Mul(l, r)) == Ok(a * b)
  {
    DefaultOpsArithmetic(a, b);
  }

  lemma DivValue(l: Expr, r: Expr, a: real, b: real)
    requires Value(DefaultOps(), l) == Ok(a) && Value(DefaultOps(), r) == Ok(b)
    ensures b == 0.0 ==> Value(DefaultOps(), Div(l, r)) == Err(DivisionByZero)
    ensures b != 0.0 ==> Value(DefaultOps(), Div(l, r)) == Ok(a / b)
  {
    DefaultOpsArithmetic(a, b);
  }

  /** An error of the right operand is the error of the sum. */
  lemma AddRightError(l: Expr, r: Expr, a: real, e: CalcError)
    requires Value(DefaultOps(), l) == Ok(a) && Value(DefaultOps(), r) == Err(e)
    ensures Value(DefaultOps(), Add(l, r)) == Err(e)
  {
  }

  // ------------------------------------------------ values and errors of the tests

  function Sum(): Expr {
    Add(Num("2"), Num("2"))
  }
  lemma SumRender() ensures Render(Sum()) == "2+2" { }
  lemma SumWellFormed() ensures WellFormed(Sum()) { }
  lemma SumValue() ensures Value(DefaultOps(), Sum()) == Ok(4.0) {
    DigitValue('2'); AddValue(Num("2"), Num("2"), 2.0, 2.0);
  }

  lemma CalcSum()
    ensures Calculation(DefaultOps(), "2+2") == Ok(4.0)
  {
    SumRender();
    SumWellFormed();
    SumValue();
    ByTree(Sum(), "2+2", Ok(4.0));
  }

  function Difference(): Expr {
    Sub(Num("2"), Num("4"))
  }
  lemma DifferenceRender() ensures Render(Difference()) == "2-4" { }
  lemma DifferenceWellFormed() ensures WellFormed(Difference()) { }
  lemma DifferenceValue() ensures Value(DefaultOps(), Difference()) == Ok(-2.0) {
    DigitValue('2'); DigitValue('4'); SubValue(Num("2"), Num("4"), 2.0, 4.0);
  }

  lemma CalcDifference()
    ensures Calculation(DefaultOps(), "2-4") == Ok(-2.0)
  {
    DifferenceRender();
    DifferenceWellFormed();
    DifferenceValue();
    ByTree(Difference(), "2-4", Ok(-2.0));
  }

  function ProductFirst(): Expr {
    Add(Mul(Num("2"), Num("3")), Num("4"))
  }
  lemma ProductFirstRender() ensures Render(ProductFirst()) == "2*3+4" { }
  lemma ProductFirstWellFormed() ensures WellFormed(ProductFirst()) { }
  lemma ProductFirstValue() ensures Value(DefaultOps(), ProductFirst()) == Ok(10.0) {
    DigitValue('2'); DigitValue('3'); DigitValue('4');
    MulValue(Num("2"), Num("3"), 2.0, 3.0);
    AddValue(Mul(Num("2"), Num("3")), Num("4"), 6.0, 4.0);
  }

  lemma CalcProductFirst()
    ensures Calculation(DefaultOps(), "2*3+4") == Ok(10.0)
  {
    ProductFirstRender();
    ProductFirstWellFormed();
    ProductFirstValue();
    ByTree(ProductFirst(), "2*3+4", Ok(10.0));
  }

  function GroupedSum(): Expr {
    Mul(Num("2"), Group(Add(Num("3"), Num("4"))))
  }
  lemma GroupedSumRender() ensures Render(GroupedSum()) == "2*(3+4)" { }
  lemma GroupedSumWellFormed() ensures WellFormed(GroupedSum()) { }
  lemma GroupedSumValue() ensures Value(DefaultOps(), GroupedSum()) == Ok(14.0) {
    DigitValue('2'); DigitValue('3'); DigitValue('4');
    AddValue(Num("3"), Num("4"), 3.0, 4.0);
    MulValue(Num("2"), Group(Add(Num("3"), Num("4"))), 2.0, 7.0);
  }

  lemma CalcGroupedSum()
    ensures Calculation(DefaultOps(), "2*(3+4)") == Ok(14.0)
  {
    GroupedSumRender();
    GroupedSumWellFormed();
    GroupedSumValue();
    ByTree(GroupedSum(), "2*(3+4)", Ok(14.0));
  }

  function ZeroDivisor(): Expr {
    Div(Num("2"), Num("0"))
  }
  lemma ZeroDivisorRender() ensures Render(ZeroDivisor()) == "2/0" { }
  lemma ZeroDivisorWellFormed() ensures WellFormed(ZeroDivisor()) { }
  lemma ZeroDivisorValue() ensures Value(DefaultOps(), ZeroDivisor()) == Err(DivisionByZero) {
    DigitValue('2'); DigitValue('0'); DivValue(Num("2"), Num("0"), 2.0, 0.0);
  }

  lemma CalcZeroDivisor()
    ensures Calculation(DefaultOps(), "2/0") == Err(DivisionByZero)
  {
    ZeroDivisorRender();
    ZeroDivisorWellFormed();
    ZeroDivisorValue();
    ByTree(ZeroDivisor(), "2/0", Err(DivisionByZero));
  }

  function Chain(): Expr {
    Add(Add(Add(Num("2"), Mul(Num("2"), Num("3"))), Mul(Num("3"), Num("1"))), Num("2"))
  }
  lemma ChainRender() ensures Render(Chain()) == "2+2*3+3*1+2" { }
  lemma ChainWellFormed() ensures WellFormed(Chain()) { }
  lemma ChainValue() ensures Value(DefaultOps(), Chain()) == Ok(13.0) {
    DigitValue('1'); DigitValue('2'); DigitValue('3');
    MulValue(Num("2"), Num("3"), 2.0, 3.0);
    AddValue(Num("2"), Mul(Num("2"), Num("3")), 2.0, 6.0);
    MulValue(Num("3"), Num("1"), 3.0, 1.0);
    AddValue(Add(Num("2"), Mul(Num("2"), Num("3"))), Mul(Num("3"), Num("1")), 8.0, 3.0);
    AddValue(Add(Add(Num("2"), Mul(Num("2"), Num("3"))), Mul(Num("3"), Num("1"))), Num("2"), 11.0, 2.0);
  }

  lemma CalcChain()
    ensures Calculation(DefaultOps(), "2+2*3+3*1+2") == Ok(13.0)
  {
    ChainRender();
    ChainWellFormed();
    ChainValue();
    ByTree(Chain(), "2+2*3+3*1+2", Ok(13.0));
  }

  function Seventeen(): Expr {
    Add(Add(Num("2"), Mul(Num("2"), Num("3"))), Mul(Num("3"), Group(Add(Num("1"), Num("2")))))
  }
  lemma SeventeenRender() ensures Render(Seventeen()) == "2+2*3+3*(1+2)" {
    OnePlusTwoRender();
    assert Render(Add(Num("2"), Mul(Num("2"), Num("3")))) == "2+2*3";
    assert Render(Mul(Num("3"), Group(Add(Num("1"), Num("2"))))) == "3*(1+2)";
  }

  /** The innermost group of the tests. */
  lemma OnePlusTwoRender() ensures Render(Group(Add(Num("1"), Num("2")))) == "(1+2)" { }
  lemma SeventeenWellFormed() ensures WellFormed(Seventeen()) { }
  lemma SeventeenValue() ensures Value(DefaultOps(), Seventeen()) == Ok(17.0) {
    DigitValue('1'); DigitValue('2'); DigitValue('3');
    MulValue(Num("2"), Num("3"), 2.0, 3.0);
    AddValue(Num("2"), Mul(Num("2"), Num("3")), 2.0, 6.0);
    AddValue(Num("1"), Num("2"), 1.0, 2.0);
    MulValue(Num("3"), Group(Add(Num("1"), Num("2"))), 3.0, 3.0);
    AddValue(Add(Num("2"), Mul(Num("2"), Num("3"))), Mul(Num("3"), Group(Add(Num("1"), Num("2")))), 8.0, 9.0);
  }

  lemma CalcSeventeen()
    ensures Calculation(DefaultOps(), "2+2*3+3*(1+2)") == Ok(17.0)
  {
    SeventeenRender();
    SeventeenWellFormed();
    SeventeenValue();
    ByTree(Seventeen(), "2+2*3+3*(1+2)", Ok(17.0));
  }

  function Eighteen(): Expr {
    Add(Seventeen(), Div(Num("5"), Num("5")))
  }
  lemma EighteenRender() ensures Render(Eighteen()) == "2+2*3+3*(1+2)+5/5" { SeventeenRender(); }
  lemma EighteenWellFormed() ensures WellFormed(Eighteen()) { SeventeenWellFormed(); }
  lemma EighteenValue() ensures Value(DefaultOps(), Eighteen()) == Ok(18.0) {
    DigitValue('5');
    SeventeenValue();
    DivValue(Num("5"), Num("5"), 5.0, 5.0);
    AddValue(Seventeen(), Div(Num("5"), Num("5")), 17.0, 1.0);
  }

  lemma CalcEighteen()
    ensures Calculation(DefaultOps(), "2+2*3+3*(1+2)+5/5") == Ok(18.0)
  {
    EighteenRender();
    EighteenWellFormed();
    EighteenValue();
    ByTree(Eighteen(), "2+2*3+3*(1+2)+5/5", Ok(18.0));
  }

  function LateZeroDivisor(): Expr {
    Add(Seventeen(), Div(Num("5"), Num("0")))
  }
  lemma LateZeroDivisorRender() ensures Render(LateZeroDivisor()) == "2+2*3+3*(1+2)+5/0" { SeventeenRender(); }
  lemma LateZeroDivisorWellFormed() ensures WellFormed(LateZeroDivisor()) { SeventeenWellFormed(); }
  lemma LateZeroDivisorValue() ensures Value(DefaultOps(), LateZeroDivisor()) == Err(DivisionByZero) {
    DigitValue('5'); DigitValue('0');
    SeventeenValue();
    DivValue(Num("5"), Num("0"), 5.0, 0.0);
    AddRightError(Seventeen(), Div(Num("5"), Num("0")), 17.0, DivisionByZero);
  }

  lemma CalcLateZeroDivisor()
    ensures Calculation(DefaultOps(), "2+2*3+3*(1+2)+5/0") == Err(DivisionByZero)
  {
    LateZeroDivisorRender();
    LateZeroDivisorWellFormed();
    LateZeroDivisorValue();
    ByTree(LateZeroDivisor(), "2+2*3+3*(1+2)+5/0", Err(DivisionByZero));
  }

  function BackToSeventeen(): Expr {
    Sub(Eighteen(), Num("1"))
  }
  lemma BackToSeventeenRender() ensures Render(BackToSeventeen()) == "2+2*3+3*(1+2)+5/5-1" { EighteenRender(); }
  lemma BackToSeventeenWellFormed() ensures WellFormed(BackToSeventeen()) { EighteenWellFormed(); }
  lemma BackToSeventeenValue() ensures Value(DefaultOps(), BackToSeventeen()) == Ok(17.0) {
    DigitValue('1');
    EighteenValue();
    SubValue(Eighteen(), Num("1"), 18.0, 1.0);
  }

  lemma CalcBackToSeventeen()
    ensures Calculation(DefaultOps(), "2+2*3+3*(1+2)+5/5-1") == Ok(17.0)
  {
    BackToSeventeenRender();
    BackToSeventeenWellFormed();
    BackToSeventeenValue();
    ByTree(BackToSeventeen(), "2+2*3+3*(1+2)+5/5-1", Ok(17.0));
  }

  function ProductSecond(): Expr {
    Add(Num("2"), Mul(Num("2"), Num("2")))
  }
  lemma ProductSecondRender() ensures Render(ProductSecond()) == "2+2*2" { }
  lemma ProductSecondWellFormed() ensures WellFormed(ProductSecond()) { }
  lemma ProductSecondValue() ensures Value(DefaultOps(), ProductSecond()) == Ok(6.0) {
    DigitValue('2');
    MulValue(Num("2"), Num("2"), 2.0, 2.0);
    AddValue(Num("2"), Mul(Num("2"), Num("2")), 2.0, 4.0);
  }

  lemma CalcProductSecond()
    ensures Calculation(DefaultOps(), "2+2*2") == Ok(6.0)
  {
    ProductSecondRender();
    ProductSecondWellFormed();
    ProductSecondValue();
    ByTree(ProductSecond(), "2+2*2", Ok(6.0));
  }

  function GroupFirst(): Expr {
    Mul(Group(Add(Num("2"), Num("2"))), Num("2"))
  }
  lemma GroupFirstRender() ensures Render(GroupFirst()) == "(2+2)*2" { }
  lemma GroupFirstWellFormed() ensures WellFormed(GroupFirst()) { }
  lemma GroupFirstValue() ensures Value(DefaultOps(), GroupFirst()) == Ok(8.0) {
    DigitValue('2');
    AddValue(Num("2"), Num("2"), 2.0, 2.0);
    MulValue(Group(Add(Num("2"), Num("2"))), Num("2"), 4.0, 2.0);
  }

  lemma CalcGroupFirst()
    ensures Calculation(DefaultOps(), "(2+2)*2") == Ok(8.0)
  {
    GroupFirstRender();
    GroupFirstWellFormed();
    GroupFirstValue();
    ByTree(GroupFirst(), "(2+2)*2", Ok(8.0));
  }

  function Nested(): Expr {
    Add(Num("2"), Mul(Num("2"), Group(Add(Num("3"), Mul(Num("3"), Group(Add(Num("1"), Num("2"))))))))
  }
  lemma NestedRender() ensures Render(Nested()) == "2+2*(3+3*(1+2))" {
    var inner := Group(Add(Num("3"), Mul(Num("3"), Group(Add(Num("1"), Num("2"))))));
    NestedInnerRender();
    assert Render(Nested()) == "2" + "+" + ("2" + "*" + Render(inner));
  }

  lemma NestedInnerRender() ensures Render(Group(Add(Num("3"), Mul(Num("3"), Group(Add(Num("1"), Num("2"))))))) == "(3+3*(1+2))" {
    OnePlusTwoRender();
    assert Render(Mul(Num("3"), Group(Add(Num("1"), Num("2"))))) == "3*(1+2)";
  }
  lemma NestedWellFormed() ensures WellFormed(Nested()) { }
  lemma NestedValue() ensures Value(DefaultOps(), Nested()) == Ok(26.0) {
    DigitValue('1'); DigitValue('2'); DigitValue('3');
    AddValue(Num("1"), Num("2"), 1.0, 2.0);
    MulValue(Num("3"), Group(Add(Num("1"), Num("2"))), 3.0, 3.0);
    AddValue(Num("3"), Mul(Num("3"), Group(Add(Num("1"), Num("2")))), 3.0, 9.0);
    MulValue(Num("2"), Group(Add(Num("3"), Mul(Num("3"), Group(Add(Num("1"), Num("2")))))), 2.0, 12.0);
    AddValue(Num("2"), Mul(Num("2"), Group(Add(Num("3"), Mul(Num("3"), Group(Add(Num("1"), Num("2"))))))), 2.0, 24.0);
  }

  lemma CalcNested()
    ensures Calculation(DefaultOps(), "2+2*(3+3*(1+2))") == Ok(26.0)
  {
    NestedRender();
    NestedWellFormed();
    NestedValue();
    ByTree(Nested(), "2+2*(3+3*(1+2))", Ok(26.0));
  }

  lemma CalcEmpty()
    ensures Calculation(DefaultOps(), "") == Err(Malformed)
  {
  }

  lemma CalcUnclosed()
    ensures Calculation(DefaultOps(), "2+2*(3+3*(1+2").Err?
  {
    UnclosedCounts();
    UnclosedParenFails(DefaultOps(), "2+2*(3+3*(1+2");
  }

  lemma UnclosedCounts()
    ensures multiset("2+2*(3+3*(1+2")['('] > multiset("2+2*(3+3*(1+2")[')']
  {
    UnclosedPieces();
    UnclosedPieceCounts();
  }

  lemma UnclosedPieces() ensures "2+2*(3+3*(1+2" == "2+2*(" + "3+3*(" + "1+2" { }

  lemma UnclosedPieceCounts()
    ensures multiset("2+2*(")['('] == 1 && multiset("3+3*(")['('] == 1 && multiset("1+2")['('] == 0
    ensures multiset("2+2*(")[')'] == 0 && multiset("3+3*(")[')'] == 0 && multiset("1+2")[')'] == 0
  {
    PieceCounts("2+2*(");
    PieceCounts("3+3*(");
    assert multiset("1+2")['('] == 0 && multiset("1+2")[')'] == 0;
  }

  /** `d` `op` `d` `op` '(' has one '(' and no ')'. */
  lemma PieceCounts(s: string)
    requires |s| == 5 && s[4] == '(' && forall i :: 0 <= i < 4 ==> s[i] != '(' && s[i] != ')'
    ensures multiset(s)['('] == 1 && multiset(s)[')'] == 0
  {
    assert s == [s[0]] + [s[1]] + [s[2]] + [s[3]] + [s[4]];
  }

  // ------------------------------------------------ tokens and postfix order of the tests

  lemma NestedInfix()
    ensures Infix(Nested()) == ["2", "+", "2", "*", "(", "3", "+", "3", "*", "(", "1", "+", "2", ")", ")"]
  {
  }

  lemma NestedPostOrder()
    ensures PostOrder(Nested()) == ["2", "2", "3", "3", "1", "2", "+", "*", "+", "*", "+"]
  {
  }

  lemma TokensNested()
    ensures Tokenize("2+2*(3+3*(1+2))") == ["2", "+", "2", "*", "(", "3", "+", "3", "*", "(", "1", "+", "2", ")", ")"]
  {
    NestedRender();
    NestedWellFormed();
    NestedInfix();
    TextIsRender(Nested());
    TokenizeText(Nested());
  }

  lemma PostfixNested()
    ensures Postfix(["2", "+", "2", "*", "(", "3", "+", "3", "*", "(", "1", "+", "2", ")", ")"])
         == ["2", "2", "3", "3", "1", "2", "+", "*", "+", "*", "+"]
  {
    NestedWellFormed();
    NestedInfix();
    NestedPostOrder();
    PostfixOfInfix(Nested());
  }

  lemma TokensSum()
    ensures Tokenize("2+2") == ["2", "+", "2"]
  {
    SumRender();
    SumWellFormed();
    TextIsRender(Sum());
    TokenizeText(Sum());
  }

  lemma PostfixSum()
    ensures Postfix(["2", "+", "2"]) == ["2", "2", "+"]
  {
    SumWellFormed();
    PostfixOfInfix(Sum());
  }

  lemma TokensGroupedSum()
    ensures Tokenize("2*(3+4)") == ["2", "*", "(", "3", "+", "4", ")"]
  {
    GroupedSumRender();
    GroupedSumWellFormed();
    GroupedSumInfix();
    TextIsRender(GroupedSum());
    TokenizeText(GroupedSum());
  }

  lemma GroupedSumInfix() ensures Infix(GroupedSum()) == ["2", "*", "(", "3", "+", "4", ")"] { }

  lemma GroupedSumPostOrder() ensures PostOrder(GroupedSum()) == ["2", "3", "4", "+", "*"] { }

  lemma PostfixGroupedSum()
    ensures Postfix(["2", "*", "(", "3", "+", "4", ")"]) == ["2", "3", "4", "+", "*"]
  {
    GroupedSumWellFormed();
    GroupedSumInfix();
    GroupedSumPostOrder();
    PostfixOfInfix(GroupedSum());
  }

  lemma PrecedenceTable()
    ensures Precedence("+") == 1 && Precedence("*") == 2 && Precedence("^") == 0
  {
  }

  // ------------------------------------------------ the string-comparison number test

  /** "90" is not a number to toRPN, so "90+1" leaves '+' with one operand. */
  lemma CalcNinety()
    ensures Calculation(DefaultOps(), "90+1") == Err(Malformed)
  {
    NinetyTokens();
    NinetyConversion();
    NinetyFlush();
    NinetyEvaluation();
  }

  lemma NinetyTokens()
    ensures Tokenize("90+1") == ["90", "+", "1"]
  {
    assert !IsNumberChar("+"[0]);
    assert WellFormedTokens(["90", "+", "1"]) && Concat(["90", "+", "1"]) == "90+1";
    TokenizeRoundTrip(["90", "+", "1"]);
  }

  lemma NinetyConversion()
    ensures RPNFrom(RPNState([], []), ["90", "+", "1"]) == RPNState(["90", "+"], ["1"])
  {
    NinetyIsOperator();
    var ts := ["90", "+", "1"];
    assert ts[1..] == ["+", "1"] && ts[1..][1..] == ["1"];
    assert RPNStep(RPNState([], []), "90") == RPNState(["90"], []);
    PlusOverNinety();
    assert RPNStep(RPNState(["90", "+"], []), "1") == RPNState(["90", "+"], ["1"]);
  }

  /** "90" sorts after "9", so it takes the operator branch with precedence 0. */
  lemma NinetyIsOperator()
    ensures !IsNumberToken("90") && Precedence("90") == 0
  {
    assert !LexLe("90", "9");
  }

  lemma PlusOverNinety()
    ensures RPNStep(RPNState(["90"], []), "+") == RPNState(["90", "+"], [])
  {
    assert !IsNumberToken("+") by { assert !LexLe("0", "+"); }
    assert PopWhileAtLeast(RPNState(["90"], []), 1) == RPNState(["90"], []);
  }

  lemma NinetyFlush()
    ensures PopAll(RPNState(["90", "+"], ["1"])) == ["1", "+", "90"]
  {
  }

  lemma NinetyEvaluation()
    ensures Evaluate(DefaultOps(), ["1", "+", "90"], []) == Err(Malformed)
  {
  }

  /** "9.5" goes through the operator branch but still reaches the output and parses. */
  lemma CalcNinePointFive()
    ensures Calculation(DefaultOps(), "9.5") == Ok(9.5)
  {
    RunTokens("9.5");
    NinePointFiveConversion();
    NinePointFiveEvaluation();
  }

  /** A text that is one run of number characters is a single token. */
  lemma RunTokens(t: string)
    requires IsRun(t)
    ensures Tokenize(t) == [t]
  {
    assert [t][1..] == [] && t + [] == t;
    assert WellFormedTokens([t]) && Concat([t]) == t;
    TokenizeRoundTrip([t]);
  }

  lemma NinePointFiveConversion()
    ensures Postfix(["9.5"]) == ["9.5"]
  {
    assert RPNFrom(RPNState([], []), ["9.5"]) == RPNState(["9.5"], []);
  }

  lemma NinePointFiveEvaluation()
    ensures Evaluate(DefaultOps(), ["9.5"], []) == Ok(9.5)
  {
  }

  /**
   * In "(9.5)" the precedence-0 token "9.5" pops the '(' into the output, and
   * the evaluator then rejects '(' as a number.
   */
  lemma CalcGroupedNinePointFive()
    ensures Calculation(DefaultOps(), "(9.5)") == Err(InvalidNumber)
  {
    GroupedNinePointFiveTokens();
    GroupedNinePointFiveConversion();
    GroupedNinePointFiveEvaluation();
  }

  lemma GroupedNinePointFiveTokens()
    ensures Tokenize("(9.5)") == ["(", "9.5", ")"]
  {
    assert !IsNumberChar("("[0]) && !IsNumberChar(")"[0]);
    assert WellFormedTokens(["(", "9.5", ")"]) && Concat(["(", "9.5", ")"]) == "(9.5)";
    TokenizeRoundTrip(["(", "9.5", ")"]);
  }

  lemma GroupedNinePointFiveConversion()
    ensures Postfix(["(", "9.5", ")"]) == ["(", "9.5"]
  {
    var init := RPNState([], []);
    RPNFromAppend(init, ["(", "9.5"], [")"]);
    assert ["(", "9.5"] + [")"] == ["(", "9.5", ")"];
    OpenThenNinePointFive();
    CloseAfterNinePointFive();
  }

  lemma OpenThenNinePointFive()
    ensures RPNFrom(RPNState([], []), ["(", "9.5"]) == RPNState(["9.5"], ["("])
  {
    RPNFromAppend(RPNState([], []), ["("], ["9.5"]);
    assert ["("] + ["9.5"] == ["(", "9.5"];
    OpenFirst();
    NinePointFivePopsOpen();
  }

  lemma OpenFirst() ensures RPNFrom(RPNState([], []), ["("]) == RPNState(["("], []) { }

  /** The precedence-0 token "9.5" pops the '(' below it. */
  lemma NinePointFivePopsOpen() ensures RPNFrom(RPNState(["("], []), ["9.5"]) == RPNState(["9.5"], ["("]) { }

  lemma CloseAfterNinePointFive()
    ensures RPNFrom(RPNState(["9.5"], ["("]), [")"]) == RPNState([], ["(", "9.5"])
  {
  }

  lemma GroupedNinePointFiveEvaluation()
    ensures Evaluate(DefaultOps(), ["(", "9.5"], []) == Err(InvalidNumber)
  {
  }

  // ------------------------------------------------ spaces and commas

  /** A space does not end a number run. */
  lemma TokensAcrossSpace()
    ensures Tokenize("2 3") == ["23"]
  {
    SpacesIgnored("2 3");
    assert RemoveSpaces("2 3") == "23";
    assert WellFormedTokens(["23"]) && Concat(["23"]) == "23";
    TokenizeRoundTrip(["23"]);
  }

  /** A ',' is gathered into the number run but refused by the parser. */
  lemma CalcComma()
    ensures Calculation(DefaultOps(), "1,5") == Err(InvalidNumber)
  {
    RunTokens("1,5");
    CommaConversion();
    CommaParse();
  }

  lemma CommaConversion() ensures Postfix(["1,5"]) == ["1,5"] { }

  lemma CommaParse() ensures Strconv.ParseFloat("1,5") == None { }
}
