/**
 * The expression engine of pkg/calc: a tokenizer (splitExpression), a
 * shunting-yard conversion to postfix order (toRPN) and a stack machine over
 * the postfix tokens (Operations.Calc). Each of the three is an imperative
 * method proved equal to a recursive specification function that follows the
 * loop step by step; the properties of the engine are lemmas about those
 * functions.
 */
module Calc {
  import opened Wrappers
  import Strconv

  // ------------------------------------------------------------------ tokenizer

  /** The characters splitExpression gathers into one numeric run. */
  predicate IsNumberChar(c: char) {
    '0' <= c <= '9' || c == '.' || c == ','
  }

  /** The tokenizer loop's state: the tokens emitted so far and the pending numeric run. */
  datatype SplitState = SplitState(answer: seq<string>, run: string)

  /** Emits the pending run, if there is one. */
  function Flush(answer: seq<string>, run: string): seq<string> {
    if |run| > 0 then answer + [run] else answer
  }

  /** One iteration of splitExpression's loop, on character `c`. */
  function SplitStep(st: SplitState, c: char): SplitState {
    if IsNumberChar(c) then SplitState(st.answer, st.run + [c])
    else if c != ' ' then SplitState(Flush(st.answer, st.run) + [[c]], [])
    else st
  }

  function SplitFrom(st: SplitState, s: string): SplitState
    decreases |s|
  {
    if s == [] then st else SplitFrom(SplitStep(st, s[0]), s[1..])
  }

  /** The tokens splitExpression returns for `s`. */
  function Tokenize(s: string): seq<string> {
    var st := SplitFrom(SplitState([], []), s);
    Flush(st.answer, st.run)
  }

  method SplitExpression(expression: string) returns (answer: seq<string>)
    ensures answer == Tokenize(expression)
  {
    answer := [];
    var subString: string := [];
    for i := 0 to |expression|
      invariant SplitFrom(SplitState(answer, subString), expression[i..])
             == SplitFrom(SplitState([], []), expression)
    {
      var v := expression[i];
      assert expression[i..][1..] == expression[i + 1..];
      if IsNumberChar(v) {
        subString := subString + [v];
      } else if v != ' ' {
        if |subString| > 0 {
          answer := answer + [subString];
          subString := [];
        }
        answer := answer + [[v]];
      }
    }
    if |subString| > 0 {
      answer := answer + [subString];
    }
  }

  /** The tokens written one after the other. */
  function Concat(ts: seq<string>): string {
    if ts == [] then [] else ts[0] + Concat(ts[1..])
  }

  /** `s` with every ' ' removed. */
  function RemoveSpaces(s: string): string {
    if s == [] then [] else (if s[0] == ' ' then [] else [s[0]]) + RemoveSpaces(s[1..])
  }

  /** A non-empty run of number characters. */
  predicate IsRun(t: string) {
    |t| > 0 && forall i :: 0 <= i < |t| ==> IsNumberChar(t[i])
  }

  /** A single character that is neither a number character nor a space. */
  predicate IsSingle(t: string) {
    |t| == 1 && !IsNumberChar(t[0]) && t[0] != ' '
  }

  /** Every token is a run or a single character, and no two runs are adjacent. */
  predicate WellFormedTokens(ts: seq<string>) {
    && (forall i :: 0 <= i < |ts| ==> IsRun(ts[i]) || IsSingle(ts[i]))
    && (forall i :: 0 <= i < |ts| - 1 ==> !(IsRun(ts[i]) && IsRun(ts[i + 1])))
  }

  lemma {:induction false} ConcatAppend(a: seq<string>, b: seq<string>)
    ensures Concat(a + b) == Concat(a) + Concat(b)
  {
    if a == [] {
      assert a + b == b;
    } else {
      assert (a + b)[0] == a[0];
      assert (a + b)[1..] == a[1..] + b;
      ConcatAppend(a[1..], b);
    }
  }

  lemma {:induction false} SplitFromConcat(st: SplitState, s: string)
    ensures var r := SplitFrom(st, s);
      Concat(r.answer) + r.run == Concat(st.answer) + st.run + RemoveSpaces(s)
    decreases |s|
  {
    if s != [] {
      var c := s[0];
      var next := SplitStep(st, c);
      var kept := if c == ' ' then [] else [c];
      assert RemoveSpaces(s) == kept + RemoveSpaces(s[1..]);
      StepConcat(st, c);
      SplitFromConcat(next, s[1..]);
      Assoc(Concat(st.answer) + st.run, kept, RemoveSpaces(s[1..]));
    }
  }

  /** One step of the tokenizer keeps every character but a space. */
  lemma StepConcat(st: SplitState, c: char)
    ensures var next := SplitStep(st, c);
      Concat(next.answer) + next.run == Concat(st.answer) + st.run + (if c == ' ' then [] else [c])
  {
    if IsNumberChar(c) {
      Assoc(Concat(st.answer), st.run, [c]);
    } else if c != ' ' {
      ConcatAppend(Flush(st.answer, st.run), [[c]]);
      assert Concat([[c]]) == [c] + Concat([]);
      if |st.run| > 0 {
        ConcatAppend(st.answer, [st.run]);
        assert Concat([st.run]) == st.run + Concat([]);
      }
    }
  }

  lemma Assoc<T>(a: seq<T>, b: seq<T>, c: seq<T>)
    ensures a + b + c == a + (b + c)
  {
  }

  /** Joining the tokens gives back the input without its spaces. */
  lemma TokenizeConcat(s: string)
    ensures Concat(Tokenize(s)) == RemoveSpaces(s)
  {
    var r := SplitFrom(SplitState([], []), s);
    SplitFromConcat(SplitState([], []), s);
    assert Concat(r.answer) + r.run == RemoveSpaces(s);
    if |r.run| > 0 {
      ConcatAppend(r.answer, [r.run]);
      assert Concat([r.run]) == r.run + Concat([]);
    }
  }

  /** The invariant of the tokenizer loop behind TokenizeWellFormed. */
  predicate SplitInvariant(st: SplitState) {
    && WellFormedTokens(st.answer)
    && (st.answer == [] || !IsRun(st.answer[|st.answer| - 1]))
    && (forall i :: 0 <= i < |st.run| ==> IsNumberChar(st.run[i]))
  }

  lemma {:induction false} SplitFromKeepsInvariant(st: SplitState, s: string)
    requires SplitInvariant(st)
    ensures SplitInvariant(SplitFrom(st, s))
    decreases |s|
  {
    if s != [] {
      var next := SplitStep(st, s[0]);
      assert SplitInvariant(next) by {
        if !IsNumberChar(s[0]) && s[0] != ' ' {
          var f := Flush(st.answer, st.run);
          assert WellFormedTokens(f);
          assert f == [] || !IsRun(f[|f| - 1]) || |st.run| > 0;
          assert IsSingle([s[0]]);
        }
      }
      SplitFromKeepsInvariant(next, s[1..]);
    }
  }

  /** Every token is a maximal numeric run or one other non-space character. */
  lemma TokenizeWellFormed(s: string)
    ensures WellFormedTokens(Tokenize(s))
  {
    SplitFromKeepsInvariant(SplitState([], []), s);
  }

  lemma {:induction false} SplitFromAppend(st: SplitState, a: string, b: string)
    ensures SplitFrom(st, a + b) == SplitFrom(SplitFrom(st, a), b)
    decreases |a|
  {
    if a == [] {
      assert a + b == b;
    } else {
      assert (a + b)[0] == a[0];
      assert (a + b)[1..] == a[1..] + b;
      SplitFromAppend(SplitStep(st, a[0]), a[1..], b);
    }
  }

  lemma {:induction false} SplitFromRun(st: SplitState, t: string)
    requires forall i :: 0 <= i < |t| ==> IsNumberChar(t[i])
    ensures SplitFrom(st, t) == SplitState(st.answer, st.run + t)
    decreases |t|
  {
    if t != [] {
      SplitFromRun(SplitStep(st, t[0]), t[1..]);
      assert st.run + [t[0]] + t[1..] == st.run + t;
    }
  }

  lemma {:induction false} SplitFromTokens(acc: seq<string>, run: string, ts: seq<string>)
    requires WellFormedTokens(ts)
    requires forall i :: 0 <= i < |run| ==> IsNumberChar(run[i])
    requires |run| > 0 && ts != [] ==> !IsRun(ts[0])
    ensures var r := SplitFrom(SplitState(acc, run), Concat(ts));
      Flush(r.answer, r.run) == Flush(acc, run) + ts
    decreases |ts|
  {
    if ts != [] {
      var t := ts[0];
      assert Concat(ts) == t + Concat(ts[1..]);
      SplitFromAppend(SplitState(acc, run), t, Concat(ts[1..]));
      assert WellFormedTokens(ts[1..]);
      if IsRun(t) {
        SplitFromRun(SplitState(acc, run), t);
        assert run == [];
        assert t == run + t;
        SplitFromTokens(acc, t, ts[1..]);
      } else {
        assert t == [t[0]] && t[1..] == [];
        assert SplitFrom(SplitState(acc, run), t) == SplitState(Flush(acc, run) + [t], []);
        SplitFromTokens(Flush(acc, run) + [t], [], ts[1..]);
      }
    }
  }

  /** Tokenizing joined well-formed tokens gives the same tokens back. */
  lemma TokenizeRoundTrip(ts: seq<string>)
    requires WellFormedTokens(ts)
    ensures Tokenize(Concat(ts)) == ts
  {
    SplitFromTokens([], [], ts);
  }

  /** Spaces are dropped and never end a numeric run: "2 3" tokenizes as "23". */
  lemma SpacesIgnored(s: string)
    ensures Tokenize(s) == Tokenize(RemoveSpaces(s))
  {
    TokenizeConcat(s);
    TokenizeWellFormed(s);
    TokenizeRoundTrip(Tokenize(s));
  }

  lemma {:induction false} ConcatLength(ts: seq<string>)
    requires forall i :: 0 <= i < |ts| ==> |ts[i]| > 0
    ensures |ts| <= |Concat(ts)|
  {
    if ts != [] { ConcatLength(ts[1..]); }
  }

  lemma {:induction false} RemoveSpacesLength(s: string)
    ensures |RemoveSpaces(s)| <= |s|
  {
    if s != [] { RemoveSpacesLength(s[1..]); }
  }

  /** There are never more tokens than characters. */
  lemma TokenizeLength(s: string)
    ensures |Tokenize(s)| <= |s|
  {
    TokenizeWellFormed(s);
    ConcatLength(Tokenize(s));
    TokenizeConcat(s);
    RemoveSpacesLength(s);
  }

  /** A run token is never a parenthesis. */
  lemma FlushKeepsParens(answer: seq<string>, run: string, p: string)
    requires forall i :: 0 <= i < |run| ==> IsNumberChar(run[i])
    requires p == "(" || p == ")"
    ensures multiset(Flush(answer, run))[p] == multiset(answer)[p]
  {
    if |run| > 0 {
      assert run != p by { assert IsNumberChar(run[0]); }
      assert multiset(answer + [run]) == multiset(answer) + multiset{run};
    }
  }

  lemma {:induction false} SplitFromCountsParen(st: SplitState, s: string, c: char)
    requires forall i :: 0 <= i < |st.run| ==> IsNumberChar(st.run[i])
    requires c == '(' || c == ')'
    ensures var r := SplitFrom(st, s);
      multiset(Flush(r.answer, r.run))[[c]] == multiset(Flush(st.answer, st.run))[[c]] + multiset(s)[c]
    decreases |s|
  {
    if s != [] {
      var d := s[0];
      assert s == [d] + s[1..];
      assert multiset(s)[c] == multiset([d])[c] + multiset(s[1..])[c];
      SplitStepCountsParen(st, d, c);
      SplitFromCountsParen(SplitStep(st, d), s[1..], c);
    }
  }

  /** One character adds its own parenthesis, if it is one, to the flushed tokens. */
  lemma SplitStepCountsParen(st: SplitState, d: char, c: char)
    requires forall i :: 0 <= i < |st.run| ==> IsNumberChar(st.run[i])
    requires c == '(' || c == ')'
    ensures var next := SplitStep(st, d);
      && (forall i :: 0 <= i < |next.run| ==> IsNumberChar(next.run[i]))
      && multiset(Flush(next.answer, next.run))[[c]] == multiset(Flush(st.answer, st.run))[[c]] + multiset([d])[c]
  {
    if IsNumberChar(d) {
      assert d != c;
      FlushKeepsParens(st.answer, st.run, [c]);
      FlushKeepsParens(st.answer, st.run + [d], [c]);
    } else if d != ' ' {
      SymbolCountsParen(st, d, c);
    }
  }

  /** A character that is neither part of a number nor a space becomes a token of its own. */
  lemma SymbolCountsParen(st: SplitState, d: char, c: char)
    requires forall i :: 0 <= i < |st.run| ==> IsNumberChar(st.run[i])
    requires c == '(' || c == ')'
    ensures multiset(Flush(st.answer, st.run) + [[d]])[[c]] == multiset(Flush(st.answer, st.run))[[c]] + multiset([d])[c]
  {
    var f := Flush(st.answer, st.run);
    assert multiset(f + [[d]]) == multiset(f) + multiset{[d]};
    assert [d] == [c] <==> d == c;
  }

  /** Every '(' and every ')' of the text becomes a token of its own. */
  lemma TokenizeCountsParens(s: string)
    ensures multiset(Tokenize(s))["("] == multiset(s)['(']
    ensures multiset(Tokenize(s))[")"] == multiset(s)[')']
  {
    SplitFromCountsParen(SplitState([], []), s, '(');
    SplitFromCountsParen(SplitState([], []), s, ')');
  }

  // ------------------------------------------------------- postfix conversion

  /**
   * The precedence table: '+' and '-' bind at 1, '*' and '/' at 2, anything
   * else at 0. Only the four operators rank above 0, and the multiplicative
   * ones bind tighter than the additive ones.
   */
  function Precedence(op: string): (p: nat)
    ensures p > 0 <==> IsOperator(op)
    ensures p <= 2
    ensures IsOperator(op) ==> (p == 2 <==> op != "+" && op != "-")
  {
    if op == "+" || op == "-" then 1
    else if op == "*" || op == "/" then 2
    else 0
  }

  /** Go's `a <= b` on strings: lexicographic order of the characters. */
  predicate LexLe(a: string, b: string)
    decreases |a|
  {
    a == [] || (b != [] && (a[0] < b[0] || (a[0] == b[0] && LexLe(a[1..], b[1..]))))
  }

  /** toRPN's number test `v >= "0" && v <= "9"`, a string comparison. */
  predicate IsNumberToken(v: string) {
    LexLe("0", v) && LexLe(v, "9")
  }

  /**
   * The string comparison accepts exactly the tokens whose first character is
   * '0'..'8', and the token "9": "90" and "9.5" are not numbers to toRPN.
   */
  lemma NumberTokenShape(v: string)
    ensures IsNumberToken(v) <==> (|v| > 0 && '0' <= v[0] <= '8') || v == "9"
  {
    if |v| > 0 && v[0] == '9' && v != "9" {
      assert |v| > 1;
      assert !LexLe(v[1..], "9"[1..]);
    }
  }

  /** The converter's state: the operator stack (top last) and the output so far. */
  datatype RPNState = RPNState(stack: seq<string>, answer: seq<string>)

  /** Moves the stack top to the output. */
  function MoveTop(st: RPNState): RPNState
    requires |st.stack| > 0
  {
    RPNState(st.stack[..|st.stack| - 1], st.answer + [st.stack[|st.stack| - 1]])
  }

  /** The operator branch's inner loop: output every stack top of precedence at least `p`. */
  function PopWhileAtLeast(st: RPNState, p: nat): RPNState
    decreases |st.stack|
  {
    if |st.stack| > 0 && Precedence(st.stack[|st.stack| - 1]) >= p then PopWhileAtLeast(MoveTop(st), p)
    else st
  }

  /** The ')' branch's inner loop: output every stack top down to the nearest '('. */
  function PopToParen(st: RPNState): RPNState
    decreases |st.stack|
  {
    if |st.stack| > 0 && st.stack[|st.stack| - 1] != "(" then PopToParen(MoveTop(st))
    else st
  }

  /** The final loop: output the whole stack, top first. */
  function PopAll(st: RPNState): seq<string>
    decreases |st.stack|
  {
    if |st.stack| > 0 then PopAll(MoveTop(st)) else st.answer
  }

  /** One iteration of toRPN's loop, on token `v`. */
  function RPNStep(st: RPNState, v: string): RPNState {
    if IsNumberToken(v) then RPNState(st.stack, st.answer + [v])
    else if v == "(" then RPNState(st.stack + [v], st.answer)
    else if v == ")" then
      var s := PopToParen(st);
      if |s.stack| > 0 then RPNState(s.stack[..|s.stack| - 1], s.answer) else s
    else
      var s := PopWhileAtLeast(st, Precedence(v));
      RPNState(s.stack + [v], s.answer)
  }

  function RPNFrom(st: RPNState, ts: seq<string>): RPNState
    decreases |ts|
  {
    if ts == [] then st else RPNFrom(RPNStep(st, ts[0]), ts[1..])
  }

  /** The tokens toRPN returns for `ts`. */
  function Postfix(ts: seq<string>): seq<string> {
    PopAll(RPNFrom(RPNState([], []), ts))
  }

  method ToRPN(expression: seq<string>) returns (answer: seq<string>)
    ensures answer == Postfix(expression)
  {
    var stack: seq<string> := [];
    answer := [];
    for i := 0 to |expression|
      invariant RPNFrom(RPNState(stack, answer), expression[i..])
             == RPNFrom(RPNState([], []), expression)
    {
      var v := expression[i];
      ghost var before := RPNState(stack, answer);
      assert expression[i..][1..] == expression[i + 1..];
      if IsNumberToken(v) {
        answer := answer + [v];
      } else if v == "(" {
        stack := stack + [v];
      } else if v == ")" {
        while |stack| > 0 && stack[|stack| - 1] != "("
          invariant PopToParen(RPNState(stack, answer)) == PopToParen(before)
          decreases |stack|
        {
          answer := answer + [stack[|stack| - 1]];
          stack := stack[..|stack| - 1];
        }
        if |stack| > 0 {
          stack := stack[..|stack| - 1];
        }
      } else {
        while |stack| > 0 && Precedence(stack[|stack| - 1]) >= Precedence(v)
          invariant PopWhileAtLeast(RPNState(stack, answer), Precedence(v))
                 == PopWhileAtLeast(before, Precedence(v))
          decreases |stack|
        {
          answer := answer + [stack[|stack| - 1]];
          stack := stack[..|stack| - 1];
        }
        stack := stack + [v];
      }
      assert RPNState(stack, answer) == RPNStep(before, v);
    }
    while |stack| > 0
      invariant PopAll(RPNState(stack, answer)) == Postfix(expression)
      decreases |stack|
    {
      answer := answer + [stack[|stack| - 1]];
      stack := stack[..|stack| - 1];
    }
  }

  lemma {:induction false} RPNFromAppend(st: RPNState, a: seq<string>, b: seq<string>)
    ensures RPNFrom(st, a + b) == RPNFrom(RPNFrom(st, a), b)
    decreases |a|
  {
    if a == [] {
      assert a + b == b;
    } else {
      assert (a + b)[0] == a[0] && (a + b)[1..] == a[1..] + b;
      RPNFromAppend(RPNStep(st, a[0]), a[1..], b);
    }
  }

  function Reversed(s: seq<string>): (r: seq<string>)
    ensures |r| == |s|
    ensures multiset(r) == multiset(s)
  {
    if s == [] then []
    else
      assert s == s[..|s| - 1] + [s[|s| - 1]];
      [s[|s| - 1]] + Reversed(s[..|s| - 1])
  }

  /** Everything the converter holds: the output followed by the stack, top first. */
  function Pool(st: RPNState): seq<string> {
    st.answer + Reversed(st.stack)
  }

  /** St2's stack is what remains of st1's after popping some tops. */
  predicate Popped(st1: RPNState, st2: RPNState) {
    |st2.stack| <= |st1.stack| && st2.stack == st1.stack[..|st2.stack|]
  }

  lemma MoveTopPool(st: RPNState)
    requires |st.stack| > 0
    ensures Pool(MoveTop(st)) == Pool(st) && Popped(st, MoveTop(st))
  {
    var n := |st.stack|;
    assert Reversed(st.stack) == [st.stack[n - 1]] + Reversed(st.stack[..n - 1]);
  }

  lemma PoppedTrans(st1: RPNState, st2: RPNState, st3: RPNState)
    requires Popped(st1, st2) && Popped(st2, st3)
    ensures Popped(st1, st3)
  {
    assert st1.stack[..|st2.stack|][..|st3.stack|] == st1.stack[..|st3.stack|];
  }

  lemma {:induction false} PopWhileAtLeastPool(st: RPNState, p: nat)
    ensures Pool(PopWhileAtLeast(st, p)) == Pool(st) && Popped(st, PopWhileAtLeast(st, p))
    decreases |st.stack|
  {
    if |st.stack| > 0 && Precedence(st.stack[|st.stack| - 1]) >= p {
      MoveTopPool(st);
      PopWhileAtLeastPool(MoveTop(st), p);
      PoppedTrans(st, MoveTop(st), PopWhileAtLeast(MoveTop(st), p));
    }
  }

  lemma {:induction false} PopToParenPool(st: RPNState)
    ensures var s := PopToParen(st);
      Pool(s) == Pool(st) && Popped(st, s) && (s.stack == [] || s.stack[|s.stack| - 1] == "(")
    decreases |st.stack|
  {
    if |st.stack| > 0 && st.stack[|st.stack| - 1] != "(" {
      MoveTopPool(st);
      PopToParenPool(MoveTop(st));
      PoppedTrans(st, MoveTop(st), PopToParen(MoveTop(st)));
    }
  }

  lemma {:induction false} PopAllPool(st: RPNState)
    ensures PopAll(st) == Pool(st)
    decreases |st.stack|
  {
    if |st.stack| > 0 {
      MoveTopPool(st);
      PopAllPool(MoveTop(st));
    }
  }

  /** The tokens of `s` that satisfy `p`, in order. */
  function Filter(p: string -> bool, s: seq<string>): seq<string> {
    if s == [] then [] else (if p(s[0]) then [s[0]] else []) + Filter(p, s[1..])
  }

  lemma {:induction false} FilterAppend(p: string -> bool, a: seq<string>, b: seq<string>)
    ensures Filter(p, a + b) == Filter(p, a) + Filter(p, b)
  {
    if a == [] {
      assert a + b == b;
    } else {
      assert (a + b)[0] == a[0] && (a + b)[1..] == a[1..] + b;
      FilterAppend(p, a[1..], b);
    }
  }

  lemma {:induction false} FilterNone(p: string -> bool, s: seq<string>)
    requires forall t :: t in multiset(s) ==> !p(t)
    ensures Filter(p, s) == []
  {
    if s != [] {
      assert s == [s[0]] + s[1..];
      assert multiset(s) == multiset{s[0]} + multiset(s[1..]);
      FilterNone(p, s[1..]);
    }
  }

  predicate IsParen(t: string) { t == "(" || t == ")" }

  predicate IsNotParen(t: string) { !IsParen(t) }

  /** What the converter keeps on its stack: no number, no ')'. */
  predicate StackOk(stack: seq<string>) {
    forall i :: 0 <= i < |stack| ==> !IsNumberToken(stack[i]) && stack[i] != ")"
  }

  /** Inserting `v` between `x` and `y`, when no element of `y` satisfies `p`. */
  lemma InsertFacts(p: string -> bool, x: seq<string>, v: string, y: seq<string>)
    requires Filter(p, y) == []
    ensures Filter(p, x + [v] + y) == Filter(p, x + y) + Filter(p, [v])
  {
    FilterAppend(p, x + [v], y);
    FilterAppend(p, x, [v]);
    FilterAppend(p, x, y);
  }

  lemma InsertMultiset(p: string -> bool, x: seq<string>, v: string, y: seq<string>)
    ensures multiset(Filter(p, x + [v] + y)) == multiset(Filter(p, x + y)) + multiset(Filter(p, [v]))
  {
    FilterAppend(p, x + [v], y);
    FilterAppend(p, x, [v]);
    FilterAppend(p, x, y);
  }

  /** Deleting an element that `p` rejects from between `x` and `y`. */
  lemma DeleteFacts(p: string -> bool, x: seq<string>, t: string, y: seq<string>)
    requires !p(t)
    ensures Filter(p, x + y) == Filter(p, x + [t] + y)
  {
    FilterAppend(p, x + [t], y);
    FilterAppend(p, x, [t]);
    FilterAppend(p, x, y);
    assert Filter(p, [t]) == [] + Filter(p, []);
  }

  /** The tokens of `ts` that satisfy `p` follow those of `pool` to make those of `pool'`. */
  predicate Tracks(p: string -> bool, pool: seq<string>, pool': seq<string>, ts: seq<string>) {
    Filter(p, pool') == Filter(p, pool) + Filter(p, ts)
  }

  /** As `Tracks`, ignoring order. */
  predicate TracksMultiset(p: string -> bool, pool: seq<string>, pool': seq<string>, ts: seq<string>) {
    multiset(Filter(p, pool')) == multiset(Filter(p, pool)) + multiset(Filter(p, ts))
  }

  /** Nothing but the tokens of `ts` was added to `pool`. */
  predicate Bounded(pool: seq<string>, pool': seq<string>, ts: seq<string>) {
    multiset(pool') <= multiset(pool) + multiset(ts)
  }

  lemma TracksTrans(p: string -> bool, p1: seq<string>, p2: seq<string>, p3: seq<string>, a: seq<string>, b: seq<string>)
    requires Tracks(p, p1, p2, a) && Tracks(p, p2, p3, b)
    ensures Tracks(p, p1, p3, a + b)
  {
    FilterAppend(p, a, b);
  }

  lemma TracksMultisetTrans(p: string -> bool, p1: seq<string>, p2: seq<string>, p3: seq<string>, a: seq<string>, b: seq<string>)
    requires TracksMultiset(p, p1, p2, a) && TracksMultiset(p, p2, p3, b)
    ensures TracksMultiset(p, p1, p3, a + b)
  {
    FilterAppend(p, a, b);
  }

  lemma BoundedTrans(p1: seq<string>, p2: seq<string>, p3: seq<string>, a: seq<string>, b: seq<string>)
    requires Bounded(p1, p2, a) && Bounded(p2, p3, b)
    ensures Bounded(p1, p3, a + b)
  {
  }

  /**
   * What running the converter from `st` to `st'` over the tokens `ts` keeps:
   * the stack stays free of numbers and ')', no ')' appears, the numbers of
   * `ts` follow the earlier ones in order, the other non-parenthesis tokens are
   * added as a multiset, and nothing else is added.
   */
  predicate Flow(st: RPNState, st': RPNState, ts: seq<string>) {
    && StackOk(st'.stack)
    && (")" !in Pool(st) ==> ")" !in Pool(st'))
    && Tracks(IsNumberToken, Pool(st), Pool(st'), ts)
    && TracksMultiset(IsNotParen, Pool(st), Pool(st'), ts)
    && Bounded(Pool(st), Pool(st'), ts)
  }

  lemma FlowTrans(st1: RPNState, st2: RPNState, st3: RPNState, a: seq<string>, b: seq<string>)
    requires Flow(st1, st2, a) && Flow(st2, st3, b)
    ensures Flow(st1, st3, a + b)
  {
    TracksTrans(IsNumberToken, Pool(st1), Pool(st2), Pool(st3), a, b);
    TracksMultisetTrans(IsNotParen, Pool(st1), Pool(st2), Pool(st3), a, b);
    BoundedTrans(Pool(st1), Pool(st2), Pool(st3), a, b);
  }

  lemma PushFlow(st: RPNState, st': RPNState, x: seq<string>, v: string, y: seq<string>)
    requires StackOk(st'.stack)
    requires Pool(st) == x + y && Pool(st') == x + [v] + y && v != ")"
    requires Filter(IsNumberToken, y) == []
    ensures Flow(st, st', [v])
  {
    InsertFacts(IsNumberToken, x, v, y);
    InsertMultiset(IsNotParen, x, v, y);
    assert multiset(x + [v] + y) == multiset(x + y) + multiset{v};
  }

  lemma ParensAreNotNumbers()
    ensures !IsNumberToken("(") && !IsNumberToken(")")
  {
    assert !LexLe("0", "(");
    assert !LexLe("0", ")");
  }

  lemma StackOkPush(stack: seq<string>, v: string)
    requires StackOk(stack) && !IsNumberToken(v) && v != ")"
    ensures StackOk(stack + [v])
  {
  }

  lemma StackOkPrefix(stack: seq<string>, n: nat)
    requires StackOk(stack) && n <= |stack|
    ensures StackOk(stack[..n])
  {
  }

  lemma StackHasNoNumbers(stack: seq<string>)
    requires StackOk(stack)
    ensures Filter(IsNumberToken, Reversed(stack)) == []
  {
    forall t | t in multiset(Reversed(stack)) ensures !IsNumberToken(t) {
      assert t in multiset(stack);
      assert t in stack;
    }
    FilterNone(IsNumberToken, Reversed(stack));
  }

  lemma ReversedPush(stack: seq<string>, v: string)
    ensures Reversed(stack + [v]) == [v] + Reversed(stack)
  {
    assert (stack + [v])[..|stack|] == stack;
  }

  lemma NumberFlow(st: RPNState, v: string)
    requires StackOk(st.stack) && IsNumberToken(v)
    ensures Flow(st, RPNStep(st, v), [v])
  {
    StackHasNoNumbers(st.stack);
    PushFlow(st, RPNStep(st, v), st.answer, v, Reversed(st.stack));
  }

  lemma OpenFlow(st: RPNState)
    requires StackOk(st.stack)
    ensures Flow(st, RPNStep(st, "("), ["("])
  {
    ParensAreNotNumbers();
    var st' := RPNState(st.stack + ["("], st.answer);
    assert RPNStep(st, "(") == st';
    StackOkPush(st.stack, "(");
    StackHasNoNumbers(st.stack);
    ReversedPush(st.stack, "(");
    assert Pool(st') == st.answer + ["("] + Reversed(st.stack);
    PushFlow(st, st', st.answer, "(", Reversed(st.stack));
  }

  lemma DropFlow(st: RPNState, st': RPNState, x: seq<string>, y: seq<string>)
    requires StackOk(st'.stack)
    requires Pool(st) == x + ["("] + y && Pool(st') == x + y
    ensures Flow(st, st', [")"])
  {
    ParensAreNotNumbers();
    assert Filter(IsNumberToken, [")"]) == [] + Filter(IsNumberToken, []);
    assert Filter(IsNotParen, [")"]) == [] + Filter(IsNotParen, []);
    DeleteFacts(IsNumberToken, x, "(", y);
    DeleteFacts(IsNotParen, x, "(", y);
    assert multiset(x + ["("] + y) == multiset(x + y) + multiset{"("};
  }

  /** A ')' with no '(' below it only empties the stack into the output. */
  lemma UnmatchedCloseFlow(st: RPNState, s: RPNState)
    requires StackOk(s.stack) && Pool(s) == Pool(st)
    ensures Flow(st, s, [")"])
  {
    ParensAreNotNumbers();
    assert Filter(IsNumberToken, [")"]) == [] + Filter(IsNumberToken, []);
    assert Filter(IsNotParen, [")"]) == [] + Filter(IsNotParen, []);
  }

  lemma CloseFlow(st: RPNState)
    requires StackOk(st.stack)
    ensures Flow(st, RPNStep(st, ")"), [")"])
  {
    ParensAreNotNumbers();
    var s := PopToParen(st);
    PopToParenPool(st);
    StackOkPrefix(st.stack, |s.stack|);
    if |s.stack| > 0 {
      assert RPNStep(st, ")") == RPNState(s.stack[..|s.stack| - 1], s.answer);
      MatchedCloseFlow(st, s);
    } else {
      assert RPNStep(st, ")") == s;
      UnmatchedCloseFlow(st, s);
    }
  }

  /** A ')' that meets its '(' drops both. */
  lemma MatchedCloseFlow(st: RPNState, s: RPNState)
    requires StackOk(s.stack) && |s.stack| > 0 && s.stack[|s.stack| - 1] == "(" && Pool(s) == Pool(st)
    ensures Flow(st, RPNState(s.stack[..|s.stack| - 1], s.answer), [")"])
  {
    var rest := s.stack[..|s.stack| - 1];
    StackOkPrefix(s.stack, |rest|);
    assert s.stack == rest + ["("];
    ReversedPush(rest, "(");
    Assoc(s.answer, ["("], Reversed(rest));
    DropFlow(st, RPNState(rest, s.answer), s.answer, Reversed(rest));
  }

  lemma OperatorFlow(st: RPNState, v: string)
    requires StackOk(st.stack) && !IsNumberToken(v) && !IsParen(v)
    ensures Flow(st, RPNStep(st, v), [v])
  {
    var s := PopWhileAtLeast(st, Precedence(v));
    PopWhileAtLeastPool(st, Precedence(v));
    StackOkPrefix(st.stack, |s.stack|);
    assert RPNStep(st, v) == RPNState(s.stack + [v], s.answer);
    PushedOperatorFlow(st, s, v);
  }

  /** Pushing an operator onto a stack popped from `st` moves it from the input into the pool. */
  lemma PushedOperatorFlow(st: RPNState, s: RPNState, v: string)
    requires StackOk(s.stack) && Pool(s) == Pool(st) && !IsNumberToken(v) && !IsParen(v)
    ensures Flow(st, RPNState(s.stack + [v], s.answer), [v])
  {
    var st' := RPNState(s.stack + [v], s.answer);
    StackOkPush(s.stack, v);
    StackHasNoNumbers(s.stack);
    ReversedPush(s.stack, v);
    assert Pool(st') == s.answer + [v] + Reversed(s.stack);
    PushFlow(st, st', s.answer, v, Reversed(s.stack));
  }

  /** Each token of the loop, whatever its kind, keeps the flow. */
  lemma StepFlow(st: RPNState, v: string)
    requires StackOk(st.stack)
    ensures Flow(st, RPNStep(st, v), [v])
  {
    if IsNumberToken(v) { NumberFlow(st, v); }
    else if v == "(" { OpenFlow(st); }
    else if v == ")" { CloseFlow(st); }
    else { OperatorFlow(st, v); }
  }

  lemma {:induction false} RPNFromFlow(st: RPNState, ts: seq<string>)
    requires StackOk(st.stack)
    ensures Flow(st, RPNFrom(st, ts), ts)
    decreases |ts|
  {
    if ts == [] {
      assert Filter(IsNumberToken, ts) == [] && Filter(IsNotParen, ts) == [];
    } else {
      var v := ts[0];
      var st1 := RPNStep(st, v);
      StepFlow(st, v);
      RPNFromFlow(st1, ts[1..]);
      FlowTrans(st, st1, RPNFrom(st, ts), [v], ts[1..]);
      assert [v] + ts[1..] == ts;
    }
  }

  /** The whole conversion, from the empty state to the returned tokens. */
  lemma PostfixFlow(ts: seq<string>)
    ensures var out := Postfix(ts);
      && ")" !in out
      && Filter(IsNumberToken, out) == Filter(IsNumberToken, ts)
      && multiset(Filter(IsNotParen, out)) == multiset(Filter(IsNotParen, ts))
      && multiset(out) <= multiset(ts)
  {
    var init := RPNState([], []);
    RPNFromFlow(init, ts);
    PopAllPool(RPNFrom(init, ts));
    assert Pool(init) == [];
  }

  lemma PoolBag(st: RPNState)
    ensures multiset(Pool(st)) == multiset(st.answer) + multiset(st.stack)
  {
  }

  /** Removing the top of the stack removes one token from the pool. */
  lemma DropTopBag(stack: seq<string>, answer: seq<string>)
    requires |stack| > 0
    ensures multiset(Pool(RPNState(stack, answer)))
         == multiset(Pool(RPNState(stack[..|stack| - 1], answer))) + multiset{stack[|stack| - 1]}
  {
    var rest := stack[..|stack| - 1];
    assert stack == rest + [stack[|stack| - 1]];
    PoolBag(RPNState(stack, answer));
    PoolBag(RPNState(rest, answer));
  }

  lemma CloseCountsOpen(st: RPNState)
    ensures multiset(Pool(RPNStep(st, ")")))["("] + 1 >= multiset(Pool(st))["("]
  {
    ParensAreNotNumbers();
    var s := PopToParen(st);
    PopToParenPool(st);
    if |s.stack| > 0 {
      assert RPNStep(st, ")") == RPNState(s.stack[..|s.stack| - 1], s.answer);
      DropTopBag(s.stack, s.answer);
    } else {
      assert RPNStep(st, ")") == s;
    }
  }

  lemma PushCountsOpen(st: RPNState, v: string)
    requires !IsNumberToken(v) && !IsParen(v)
    ensures multiset(Pool(RPNStep(st, v)))["("] >= multiset(Pool(st))["("]
  {
    var s := PopWhileAtLeast(st, Precedence(v));
    PopWhileAtLeastPool(st, Precedence(v));
    assert RPNStep(st, v) == RPNState(s.stack + [v], s.answer);
    PoolBag(s);
    PoolBag(RPNState(s.stack + [v], s.answer));
    assert multiset(s.stack + [v]) == multiset(s.stack) + multiset{v};
  }

  /** One step of the converter loses a '(' only on a ')', and gains one on a '('. */
  lemma StepCountsOpen(st: RPNState, v: string)
    ensures multiset(Pool(RPNStep(st, v)))["("] + (if v == ")" then 1 else 0)
         >= multiset(Pool(st))["("] + (if v == "(" then 1 else 0)
  {
    ParensAreNotNumbers();
    PoolBag(st);
    if IsNumberToken(v) {
      assert RPNStep(st, v) == RPNState(st.stack, st.answer + [v]);
      PoolBag(RPNState(st.stack, st.answer + [v]));
      assert multiset(st.answer + [v]) == multiset(st.answer) + multiset{v};
    } else if v == "(" {
      assert RPNStep(st, v) == RPNState(st.stack + ["("], st.answer);
      PoolBag(RPNState(st.stack + ["("], st.answer));
      assert multiset(st.stack + ["("]) == multiset(st.stack) + multiset{"("};
    } else if v == ")" {
      CloseCountsOpen(st);
    } else {
      PushCountsOpen(st, v);
    }
  }

  lemma {:induction false} RPNFromCountsOpen(st: RPNState, ts: seq<string>)
    ensures multiset(Pool(RPNFrom(st, ts)))["("] + multiset(ts)[")"]
         >= multiset(Pool(st))["("] + multiset(ts)["("]
    decreases |ts|
  {
    if ts != [] {
      var v := ts[0];
      assert ts == [v] + ts[1..];
      assert multiset(ts) == multiset{v} + multiset(ts[1..]);
      StepCountsOpen(st, v);
      RPNFromCountsOpen(RPNStep(st, v), ts[1..]);
    }
  }

  /** A '(' without a matching ')' reaches the output. */
  lemma PostfixKeepsUnclosedParen(ts: seq<string>)
    requires multiset(ts)["("] > multiset(ts)[")"]
    ensures "(" in Postfix(ts)
  {
    var init := RPNState([], []);
    RPNFromCountsOpen(init, ts);
    PopAllPool(RPNFrom(init, ts));
    assert Pool(init) == [];
  }

  /** The output of toRPN never contains ')'. */
  lemma PostfixHasNoCloseParen(ts: seq<string>)
    ensures ")" !in Postfix(ts)
  {
    PostfixFlow(ts);
  }

  /** Number tokens reach the output in their input order, none lost or added. */
  lemma PostfixKeepsNumberOrder(ts: seq<string>)
    ensures Filter(IsNumberToken, Postfix(ts)) == Filter(IsNumberToken, ts)
  {
    PostfixFlow(ts);
  }

  /** Apart from parentheses the output is a permutation of the input. */
  lemma PostfixPermutesNonParens(ts: seq<string>)
    ensures multiset(Filter(IsNotParen, Postfix(ts))) == multiset(Filter(IsNotParen, ts))
  {
    PostfixFlow(ts);
  }

  /** Every output token comes from the input, so the output is never longer. */
  lemma PostfixLength(ts: seq<string>)
    ensures multiset(Postfix(ts)) <= multiset(ts)
    ensures |Postfix(ts)| <= |ts|
  {
    PostfixFlow(ts);
    var out, all := multiset(Postfix(ts)), multiset(ts);
    assert all == out + (all - out);
    assert |all| == |out| + |all - out|;
    assert |out| == |Postfix(ts)| && |all| == |ts|;
  }

  // ------------------------------------------------------------------ evaluator

  /** The three errors of Operations.Calc. */
  datatype CalcError = Malformed | DivisionByZero | InvalidNumber {
    /** The error text the engine reports. */
    function Message(): string {
      match this
      case Malformed => "некорректное выражение"
      case DivisionByZero => "деление на ноль"
      case InvalidNumber => "некорректное число"
    }
  }

  lemma MessagesDistinct(e1: CalcError, e2: CalcError)
    ensures e1.Message() == e2.Message() <==> e1 == e2
  {
    if e1 != e2 {
      assert |e1.Message()| != |e2.Message()|;
    }
  }

  /**
   * The four arithmetic callbacks. A DivideFunc may refuse some arguments (the
   * default one panics on a zero divisor), so it is a partial function.
   */
  datatype Operations = Operations(
    plus: (real, real) -> real,
    minus: (real, real) -> real,
    multiply: (real, real) -> real,
    divide: (real, real) --> real)

  /** The engine only ever divides by a non-zero value, and this is all it needs of `divide`. */
  ghost predicate DivideDefined(ops: Operations) {
    forall a: real, b: real :: b != 0.0 ==> ops.divide.requires(a, b)
  }

  /** NewOperationsDefault: exact arithmetic, division refusing a zero divisor. */
  function DefaultOps(): (ops: Operations)
    ensures DivideDefined(ops)
  {
    Operations(
      (a: real, b: real) => a + b,
      (a: real, b: real) => a - b,
      (a: real, b: real) => a * b,
      (a: real, b: real) requires b != 0.0 => a / b)
  }

  lemma DefaultOpsArithmetic(a: real, b: real)
    ensures DefaultOps().plus(a, b) == a + b
    ensures DefaultOps().minus(a, b) == a - b
    ensures DefaultOps().multiply(a, b) == a * b
    ensures b != 0.0 ==> DefaultOps().divide(a, b) == a / b
  {
  }

  /** The tokens Operations.Calc treats as operators; every other token is parsed as a number. */
  predicate IsOperator(t: string) {
    t == "+" || t == "-" || t == "*" || t == "/"
  }

  /** The callback the engine calls for operator `t`, with `a` the deeper operand. */
  function Apply(ops: Operations, t: string, a: real, b: real): real
    requires IsOperator(t) && (t == "/" ==> ops.divide.requires(a, b))
  {
    if t == "+" then ops.plus(a, b)
    else if t == "-" then ops.minus(a, b)
    else if t == "*" then ops.multiply(a, b)
    else ops.divide(a, b)
  }

  /**
   * Operations.Calc's loop from the value stack `stack` (top last) over the
   * remaining postfix tokens `rpn`, then its final check on the stack.
   */
  function Evaluate(ops: Operations, rpn: seq<string>, stack: seq<real>): Result<real, CalcError>
    requires DivideDefined(ops)
    decreases |rpn|
  {
    if rpn == [] then
      if |stack| != 1 then Err(Malformed) else Ok(stack[0])
    else
      var t := rpn[0];
      if IsOperator(t) then
        if |stack| < 2 then Err(Malformed)
        else
          var b := stack[|stack| - 1];
          var a := stack[|stack| - 2];
          if t == "/" && b == 0.0 then Err(DivisionByZero)
          else Evaluate(ops, rpn[1..], stack[..|stack| - 2] + [Apply(ops, t, a, b)])
      else
        match Strconv.ParseFloat(t)
        case None => Err(InvalidNumber)
        case Some(v) => Evaluate(ops, rpn[1..], stack + [v])
  }

  /** One token of Operations.Calc's loop: the value stack after it, or the error that stops the loop. */
  function Step(ops: Operations, t: string, stack: seq<real>): Result<seq<real>, CalcError>
    requires DivideDefined(ops)
  {
    if IsOperator(t) then
      if |stack| < 2 then Err(Malformed)
      else
        var b := stack[|stack| - 1];
        var a := stack[|stack| - 2];
        if t == "/" && b == 0.0 then Err(DivisionByZero)
        else Ok(stack[..|stack| - 2] + [Apply(ops, t, a, b)])
    else
      match Strconv.ParseFloat(t)
      case None => Err(InvalidNumber)
      case Some(v) => Ok(stack + [v])
  }

  /** The stack machine is its steps, one token after the other. */
  lemma EvaluateStep(ops: Operations, rpn: seq<string>, stack: seq<real>)
    requires DivideDefined(ops) && rpn != []
    ensures Evaluate(ops, rpn, stack) ==
      match Step(ops, rpn[0], stack)
      case Err(e) => Err(e)
      case Ok(s) => Evaluate(ops, rpn[1..], s)
  {
  }

  /** What Operations.Calc computes for the expression text `s`. */
  function Calculation(ops: Operations, s: string): Result<real, CalcError>
    requires DivideDefined(ops)
  {
    Evaluate(ops, Postfix(Tokenize(s)), [])
  }

  /**
   * Operations.Calc: tokenize, convert, then run the stack machine. The pair
   * it returns is the value and no error, or 0 and the error.
   */
  method Calc(ops: Operations, expression: string) returns (value: real, err: Option<CalcError>)
    requires DivideDefined(ops)
    ensures match Calculation(ops, expression)
      case Ok(v) => value == v && err == None
      case Err(e) => value == 0.0 && err == Some(e)
  {
    var tokens := SplitExpression(expression);
    var rpn := ToRPN(tokens);
    var stack: seq<real> := [];
    ghost var goal := Evaluate(ops, rpn, []);
    assert goal == Calculation(ops, expression);
    for i := 0 to |rpn|
      invariant Evaluate(ops, rpn[i..], stack) == goal
    {
      var token := rpn[i];
      assert rpn[i..][0] == token && rpn[i..][1..] == rpn[i + 1..];
      ghost var before := stack;
      EvaluateStep(ops, rpn[i..], stack);
      if IsOperator(token) {
        if |stack| < 2 {
          return 0.0, Some(Malformed);
        }
        var b := stack[|stack| - 1];
        stack := stack[..|stack| - 1];
        var a := stack[|stack| - 1];
        stack := stack[..|stack| - 1];
        var tempResult: real;
        if token == "+" {
          tempResult := ops.plus(a, b);
        } else if token == "-" {
          tempResult := ops.minus(a, b);
        } else if token == "*" {
          tempResult := ops.multiply(a, b);
        } else {
          if b == 0.0 {
            return 0.0, Some(DivisionByZero);
          }
          tempResult := ops.divide(a, b);
        }
        assert stack == before[..|before| - 2];
        assert tempResult == Apply(ops, token, a, b);
        stack := stack + [tempResult];
      } else {
        var parsed := Strconv.ParseFloat(token);
        if parsed.None? {
          return 0.0, Some(InvalidNumber);
        }
        stack := stack + [parsed.value];
      }
    }
    if |stack| != 1 {
      return 0.0, Some(Malformed);
    }
    return stack[0], None;
  }

  /** The package-level Calc: Operations.Calc with the default callbacks. */
  method CalcDefault(expression: string) returns (value: real, err: Option<CalcError>)
    ensures match Calculation(DefaultOps(), expression)
      case Ok(v) => value == v && err == None
      case Err(e) => value == 0.0 && err == Some(e)
  {
    value, err := Calc(DefaultOps(), expression);
  }

  /** A token the stack machine accepts: an operator or a decimal literal. */
  predicate ValidToken(t: string) {
    IsOperator(t) || Strconv.ParseFloat(t).Some?
  }

  /**
   * Starting with `n` values, every operator finds two operands and exactly
   * one value is left at the end.
   */
  predicate Balanced(n: nat, rpn: seq<string>)
    decreases |rpn|
  {
    if rpn == [] then n == 1
    else if IsOperator(rpn[0]) then n >= 2 && Balanced(n - 1, rpn[1..])
    else Balanced(n + 1, rpn[1..])
  }

  /** A successful step saw a valid token; an operator found two operands and left one. */
  lemma StepOk(ops: Operations, t: string, stack: seq<real>)
    requires DivideDefined(ops) && Step(ops, t, stack).Ok?
    ensures ValidToken(t) && (IsOperator(t) ==> |stack| >= 2)
    ensures |Step(ops, t, stack).value| == if IsOperator(t) then |stack| - 1 else |stack| + 1
  {
  }

  /** A valid token with its operands present steps, unless it divides by zero. */
  lemma StepValid(ops: Operations, t: string, stack: seq<real>)
    requires DivideDefined(ops) && ValidToken(t) && (IsOperator(t) ==> |stack| >= 2)
    ensures Step(ops, t, stack).Ok? || (t == "/" && Step(ops, t, stack) == Err(DivisionByZero))
    ensures Step(ops, t, stack).Ok? ==>
      |Step(ops, t, stack).value| == if IsOperator(t) then |stack| - 1 else |stack| + 1
  {
  }

  /** A successful evaluation saw only valid tokens, in a balanced sequence. */
  lemma {:induction false} EvaluateOkIsBalanced(ops: Operations, rpn: seq<string>, stack: seq<real>)
    requires DivideDefined(ops)
    requires Evaluate(ops, rpn, stack).Ok?
    ensures Balanced(|stack|, rpn)
    ensures forall t :: t in rpn ==> ValidToken(t)
    decreases |rpn|
  {
    if rpn != [] {
      var t := rpn[0];
      EvaluateStep(ops, rpn, stack);
      StepOk(ops, t, stack);
      EvaluateOkIsBalanced(ops, rpn[1..], Step(ops, t, stack).value);
      assert rpn == [t] + rpn[1..];
    }
  }

  /**
   * Conversely, on a balanced sequence of valid tokens the only possible error is
   * a division by zero, and that needs a '/' token.
   */
  lemma {:induction false} BalancedEvaluates(ops: Operations, rpn: seq<string>, stack: seq<real>)
    requires DivideDefined(ops)
    requires Balanced(|stack|, rpn)
    requires forall t :: t in rpn ==> ValidToken(t)
    ensures Evaluate(ops, rpn, stack).Ok? || Evaluate(ops, rpn, stack) == Err(DivisionByZero)
    ensures "/" !in rpn ==> Evaluate(ops, rpn, stack).Ok?
    decreases |rpn|
  {
    if rpn != [] {
      var t := rpn[0];
      assert t in rpn;
      assert forall u :: u in rpn[1..] ==> u in rpn;
      EvaluateStep(ops, rpn, stack);
      StepValid(ops, t, stack);
      if Step(ops, t, stack).Ok? {
        BalancedEvaluates(ops, rpn[1..], Step(ops, t, stack).value);
      }
    }
  }

  /** A token that is neither an operator nor a decimal literal makes the evaluation fail. */
  lemma {:induction false} EvaluateRejectsInvalid(ops: Operations, rpn: seq<string>, stack: seq<real>, t: string)
    requires DivideDefined(ops)
    requires t in rpn && !ValidToken(t)
    ensures Evaluate(ops, rpn, stack).Err?
    decreases |rpn|
  {
    var u := rpn[0];
    if u != t {
      assert t in rpn[1..] by { assert rpn == [u] + rpn[1..]; }
      if IsOperator(u) {
        if |stack| >= 2 {
          var b := stack[|stack| - 1];
          var a := stack[|stack| - 2];
          if !(u == "/" && b == 0.0) {
            EvaluateRejectsInvalid(ops, rpn[1..], stack[..|stack| - 2] + [Apply(ops, u, a, b)], t);
          }
        }
      } else if Strconv.ParseFloat(u).Some? {
        EvaluateRejectsInvalid(ops, rpn[1..], stack + [Strconv.ParseFloat(u).value], t);
      }
    }
  }

  /** More '(' than ')' in the text: the calculation fails. */
  lemma UnclosedParenFails(ops: Operations, s: string)
    requires DivideDefined(ops)
    requires multiset(s)['('] > multiset(s)[')']
    ensures Calculation(ops, s).Err?
  {
    TokenizeCountsParens(s);
    PostfixKeepsUnclosedParen(Tokenize(s));
    assert Strconv.ParseFloat("(") == None by {
      assert Strconv.DotIndex("(") == 1;
      assert !Strconv.AllDigits("(");
    }
    EvaluateRejectsInvalid(ops, Postfix(Tokenize(s)), [], "(");
  }
}
