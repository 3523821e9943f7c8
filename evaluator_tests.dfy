/**
 * The values ExpressionResolverTest.java expects of `evaluate`, derived from
 * `Eval` one turn of its loop at a time, and three behaviours of the code on
 * inputs of the same kind: a trailing `*`/`/` run gets no priority, an
 * operator left on the stack is ignored, and an unlisted function name
 * fails.  The functions stay uninterpreted: the value of the last test is
 * stated with `num.call("sqrt", 4.0)`.
 */
module EvaluatorExamples {
  import opened Wrappers
  import opened RegexPatterns
  import opened Numbers
  import opened ExpressionResolver
  import opened ResolverProperties
  import opened EvaluatorProperties

  // ---------------------------------------------------------------------------
  // Tokens

  /** A run of digits from `i` to `n` that neither a digit nor a dot
      continues. */
  lemma DigitsEnd(e: string, i: nat, n: nat)
    requires i < n <= |e|
    requires forall k | i <= k < n :: IsDigit(e[k])
    requires n == |e| || (!IsDigit(e[n]) && e[n] != '.')
    ensures NumberEnd(e, i) == n
  {
    RunEndSkip(e, i, n, Digits);
  }

  /** A number that does not start a `*`/`/` run with text after it. */
  lemma NumberToken(e: string, f: bool, n: nat)
    requires 0 < n <= |e| && IsDigit(e[0]) && NumberEnd(e, 0) == n
    requires ChainEnd(e, n) == n || ChainEnd(e, n) == |e|
    ensures NextElement(e, f) == Ok(ExpressionElement(if f then SignedNumber else Number, e[..n]))
  {
    if ChainEnd(e, n) > n {
      StrictPrefixRule(e, f);
    } else {
      var x := ExpressionElement(if f then SignedNumber else Number, e[..n]);
      assert TryKind(x.elementType, e, f) == Some(x);
      NextElementPriority(e, f, x);
    }
  }

  /** An operator character after the start of a call. */
  lemma OperatorToken(e: string)
    requires |e| > 0 && IsOperatorChar(e[0])
    ensures NextElement(e, false) == Ok(ExpressionElement(Operator, [e[0]]))
  {
    var x := ExpressionElement(Operator, [e[0]]);
    assert e[..1] == [e[0]];
    assert TryKind(Operator, e, false) == Some(x);
    NextElementPriority(e, false, x);
  }

  /** A bracket group with no bracket inside. */
  lemma BracketToken(e: string, f: bool, n: nat)
    requires 2 <= n <= |e| && e[0] == '(' && e[n - 1] == ')'
    requires forall k | 0 < k < n - 1 :: !IsParen(e[k])
    ensures NextElement(e, f) == Ok(ExpressionElement(SubExpressionInBrackets, e[..n]))
  {
    RunEndSkip(e, 1, n - 1, NonParens);
    var x := ExpressionElement(SubExpressionInBrackets, e[..n]);
    assert TryKind(SubExpressionInBrackets, e, f) == Some(x);
    NextElementPriority(e, f, x);
  }

  /** A run of lower-case letters before `(`. */
  lemma FunctionNameToken(e: string, f: bool, n: nat)
    requires 0 < n < |e| && e[n] == '('
    requires forall k | 0 <= k < n :: IsLower(e[k])
    ensures NextElement(e, f) == Ok(ExpressionElement(Function, e[..n]))
  {
    RunEndSkip(e, 0, n, Lowers);
    var x := ExpressionElement(Function, e[..n]);
    assert e[..n + 1][..n] == e[..n];
    assert TryKind(Function, e, f) == Some(x);
    assert TryKind(Operator, e, f).None?;
    NextElementPriority(e, f, x);
  }

  // ---------------------------------------------------------------------------
  // Literals

  /** A literal of digits only is the whole number they spell. */
  lemma WholeLiteral(t: string)
    requires |t| > 0 && AllDigits(t)
    ensures IsSignedNumberText(t) && ParseNumber(t) == DigitsValue(t) as real
  {
    RunEndSkip(t, 0, |t|, Digits);
  }

  lemma OneDigit(t: string)
    requires |t| == 1 && AllDigits(t)
    ensures DigitsValue(t) == DigitValue(t[0])
  {
    assert t[..0] == [];
  }

  lemma TwoDigits(t: string)
    requires |t| == 2 && AllDigits(t)
    ensures DigitsValue(t) == 10 * DigitValue(t[0]) + DigitValue(t[1])
  {
    assert t[..1][0] == t[0];
    OneDigit(t[..1]);
  }

  /** A `-` and digits: the negated number. */
  lemma NegativeLiteral(t: string)
    requires |t| > 1 && t[0] == '-' && AllDigits(t[1..])
    ensures IsSignedNumberText(t) && ParseNumber(t) == -(DigitsValue(t[1..]) as real)
  {
    WholeLiteral(t[1..]);
    ParseNegative(t[1..]);
    assert ['-'] + t[1..] == t;
  }

  // ---------------------------------------------------------------------------
  // Steps

  /** A number is absorbed. */
  lemma StepNumber(num: Numerics, formula: string, x: ExpressionElement, st: State)
    requires ElementWithin(x, |formula|) && (x.elementType == Number || x.elementType == SignedNumber)
    ensures Step(num, formula, x, st) == Absorb(num, st, ParseNumber(x.text))
  {
  }

  /** An operator or a listed function name is pushed. */
  lemma StepPush(num: Numerics, formula: string, x: ExpressionElement, st: State)
    requires ElementWithin(x, |formula|) && IsPushed(x.elementType)
    requires x.elementType == Function ==> x.text in ValidFunctionNames
    ensures Step(num, formula, x, st) == Ok(State(st.ops + [x.text], st.values))
  {
  }

  /** The value of the inside of a bracket group is absorbed. */
  lemma StepBracket(num: Numerics, formula: string, x: ExpressionElement, st: State, v: real)
    requires ElementWithin(x, |formula|) && x.elementType == SubExpressionInBrackets
    requires Eval(num, x.text[1..|x.text| - 1]) == Ok(v)
    ensures Step(num, formula, x, st) == Absorb(num, st, v)
  {
  }

  /** The value of a `*`/`/` run is absorbed. */
  lemma StepRun(num: Numerics, formula: string, x: ExpressionElement, st: State, v: real)
    requires ElementWithin(x, |formula|) && x.elementType == SubExpression
    requires Eval(num, x.text) == Ok(v)
    ensures Step(num, formula, x, st) == Absorb(num, st, v)
  {
  }

  lemma AbsorbPush(num: Numerics, values: seq<real>, v: real)
    ensures Absorb(num, State([], values), v) == Ok(State([], values + [v]))
  {
  }

  lemma AbsorbBinary(num: Numerics, below: seq<string>, op: string, lower: seq<real>, top: real, v: real)
    requires IsBinaryOperator(op)
    ensures Absorb(num, State(below + [op], lower + [top]), v) == Ok(State(below, lower + [ApplyBinary(num, op, top, v)]))
  {
    assert (below + [op])[..|below|] == below;
    assert (lower + [top])[..|lower|] == lower;
  }

  /** One turn of the loop that reads `element` and leaves the stacks as
      `after`. */
  lemma Advance(num: Numerics, formula: string, offset: nat, next: nat, st: State, element: ExpressionElement, after: State)
    requires offset < |formula| && Trim(formula) == formula
    requires NextElement(formula[offset..], offset == 0) == Ok(element)
    requires next == offset + |element.text|
    requires ElementWithin(element, |formula|)
    requires Step(num, formula, element, st) == Ok(after)
    ensures Loop(num, formula, formula, offset, st) == Loop(num, formula, formula, next, after)
  {
    NextElementFits(formula, formula, offset);
    LoopSteps(num, formula, formula, offset, st, element, None, after, next);
  }

  // ---------------------------------------------------------------------------
  // evaluate("10+20") == 30

  const Sum := "10+20"

  lemma SumStep0(num: Numerics)
    ensures Loop(num, Sum, Sum, 0, State([], [])) == Loop(num, Sum, Sum, 2, State([], [10.0]))
  {
    var f := Sum;
    TrimIdentity(f);
    assert f[0..] == f;
    DigitsEnd(f, 0, 2);
    NumberToken(f, true, 2);
    var t := f[..2];
    TwoDigits(t);
    WholeLiteral(t);
    var x := ExpressionElement(SignedNumber, t);
    StepNumber(num, f, x, State([], []));
    AbsorbPush(num, [], 10.0);
    assert [] + [10.0] == [10.0];
    Advance(num, f, 0, 2, State([], []), x, State([], [10.0]));
  }

  lemma SumStep1(num: Numerics)
    ensures Loop(num, Sum, Sum, 2, State([], [10.0])) == Loop(num, Sum, Sum, 3, State(["+"], [10.0]))
  {
    var f := Sum;
    TrimIdentity(f);
    OperatorToken(f[2..]);
    var x := ExpressionElement(Operator, "+");
    StepPush(num, f, x, State([], [10.0]));
    assert [] + ["+"] == ["+"];
    Advance(num, f, 2, 3, State([], [10.0]), x, State(["+"], [10.0]));
  }

  lemma SumStep2(num: Numerics)
    ensures Loop(num, Sum, Sum, 3, State(["+"], [10.0])) == Loop(num, Sum, Sum, 5, State([], [30.0]))
  {
    var f := Sum;
    TrimIdentity(f);
    var g := f[3..];
    DigitsEnd(g, 0, 2);
    NumberToken(g, false, 2);
    var t := g[..2];
    TwoDigits(t);
    WholeLiteral(t);
    var x := ExpressionElement(Number, t);
    StepNumber(num, f, x, State(["+"], [10.0]));
    AbsorbBinary(num, [], "+", [], 10.0, 20.0);
    assert [] + ["+"] == ["+"] && [] + [10.0] == [10.0] && [] + [30.0] == [30.0];
    Advance(num, f, 3, 5, State(["+"], [10.0]), x, State([], [30.0]));
  }

  /** evaluate("10+20") is 30. */
  lemma EvalSum(num: Numerics)
    ensures Eval(num, Sum) == Ok(30.0)
  {
    TrimIdentity(Sum);
    SumStep0(num);
    SumStep1(num);
    SumStep2(num);
  }

  // ---------------------------------------------------------------------------
  // evaluate("10*2+20") == 40: the run "10*2" is evaluated on its own

  const Product := "10*2"

  lemma ProductStep0(num: Numerics)
    ensures Loop(num, Product, Product, 0, State([], [])) == Loop(num, Product, Product, 2, State([], [10.0]))
  {
    var f := Product;
    TrimIdentity(f);
    assert f[0..] == f;
    DigitsEnd(f, 0, 2);
    DigitsEnd(f, 3, 4);
    NumberToken(f, true, 2);
    var t := f[..2];
    TwoDigits(t);
    WholeLiteral(t);
    var x := ExpressionElement(SignedNumber, t);
    StepNumber(num, f, x, State([], []));
    AbsorbPush(num, [], 10.0);
    assert [] + [10.0] == [10.0];
    Advance(num, f, 0, 2, State([], []), x, State([], [10.0]));
  }

  lemma ProductStep1(num: Numerics)
    ensures Loop(num, Product, Product, 2, State([], [10.0])) == Loop(num, Product, Product, 3, State(["*"], [10.0]))
  {
    var f := Product;
    TrimIdentity(f);
    OperatorToken(f[2..]);
    var x := ExpressionElement(Operator, "*");
    StepPush(num, f, x, State([], [10.0]));
    assert [] + ["*"] == ["*"];
    Advance(num, f, 2, 3, State([], [10.0]), x, State(["*"], [10.0]));
  }

  lemma ProductStep2(num: Numerics)
    ensures Loop(num, Product, Product, 3, State(["*"], [10.0])) == Loop(num, Product, Product, 4, State([], [20.0]))
  {
    var f := Product;
    TrimIdentity(f);
    var g := f[3..];
    DigitsEnd(g, 0, 1);
    NumberToken(g, false, 1);
    var t := g[..1];
    OneDigit(t);
    WholeLiteral(t);
    var x := ExpressionElement(Number, t);
    StepNumber(num, f, x, State(["*"], [10.0]));
    AbsorbBinary(num, [], "*", [], 10.0, 2.0);
    assert [] + ["*"] == ["*"] && [] + [10.0] == [10.0] && [] + [20.0] == [20.0];
    Advance(num, f, 3, 4, State(["*"], [10.0]), x, State([], [20.0]));
  }

  /** A run that spans the whole formula is read number by number. */
  lemma EvalProduct(num: Numerics)
    ensures Eval(num, Product) == Ok(20.0)
  {
    TrimIdentity(Product);
    ProductStep0(num);
    ProductStep1(num);
    ProductStep2(num);
  }

  const ProductSum := "10*2+20"

  lemma ProductSumStep0(num: Numerics)
    ensures Loop(num, ProductSum, ProductSum, 0, State([], [])) == Loop(num, ProductSum, ProductSum, 4, State([], [20.0]))
  {
    var f := ProductSum;
    TrimIdentity(f);
    assert f[0..] == f;
    DigitsEnd(f, 0, 2);
    DigitsEnd(f, 3, 4);
    assert MatchAt(HighPriorityExpressionPattern, f) == Some(4);
    StrictPrefixRule(f, true);
    assert f[..4] == Product;
    var x := ExpressionElement(SubExpression, Product);
    EvalProduct(num);
    StepRun(num, f, x, State([], []), 20.0);
    AbsorbPush(num, [], 20.0);
    assert [] + [20.0] == [20.0];
    Advance(num, f, 0, 4, State([], []), x, State([], [20.0]));
  }

  lemma ProductSumStep1(num: Numerics)
    ensures Loop(num, ProductSum, ProductSum, 4, State([], [20.0])) == Loop(num, ProductSum, ProductSum, 5, State(["+"], [20.0]))
  {
    var f := ProductSum;
    TrimIdentity(f);
    OperatorToken(f[4..]);
    var x := ExpressionElement(Operator, "+");
    StepPush(num, f, x, State([], [20.0]));
    assert [] + ["+"] == ["+"];
    Advance(num, f, 4, 5, State([], [20.0]), x, State(["+"], [20.0]));
  }

  lemma ProductSumStep2(num: Numerics)
    ensures Loop(num, ProductSum, ProductSum, 5, State(["+"], [20.0])) == Loop(num, ProductSum, ProductSum, 7, State([], [40.0]))
  {
    var f := ProductSum;
    TrimIdentity(f);
    var g := f[5..];
    DigitsEnd(g, 0, 2);
    NumberToken(g, false, 2);
    var t := g[..2];
    TwoDigits(t);
    WholeLiteral(t);
    var x := ExpressionElement(Number, t);
    StepNumber(num, f, x, State(["+"], [20.0]));
    AbsorbBinary(num, [], "+", [], 20.0, 20.0);
    assert [] + ["+"] == ["+"] && [] + [20.0] == [20.0] && [] + [40.0] == [40.0];
    Advance(num, f, 5, 7, State(["+"], [20.0]), x, State([], [40.0]));
  }

  /** evaluate("10*2+20") is 40. */
  lemma EvalProductSum(num: Numerics)
    ensures Eval(num, ProductSum) == Ok(40.0)
  {
    TrimIdentity(ProductSum);
    ProductSumStep0(num);
    ProductSumStep1(num);
    ProductSumStep2(num);
  }

  // ---------------------------------------------------------------------------
  // evaluate("10*(2+20)-4") == 216: a bracket group is evaluated on its own

  const Inner := "2+20"

  lemma InnerStep0(num: Numerics)
    ensures Loop(num, Inner, Inner, 0, State([], [])) == Loop(num, Inner, Inner, 1, State([], [2.0]))
  {
    var f := Inner;
    TrimIdentity(f);
    assert f[0..] == f;
    DigitsEnd(f, 0, 1);
    NumberToken(f, true, 1);
    var t := f[..1];
    OneDigit(t);
    WholeLiteral(t);
    var x := ExpressionElement(SignedNumber, t);
    StepNumber(num, f, x, State([], []));
    AbsorbPush(num, [], 2.0);
    assert [] + [2.0] == [2.0];
    Advance(num, f, 0, 1, State([], []), x, State([], [2.0]));
  }

  lemma InnerStep1(num: Numerics)
    ensures Loop(num, Inner, Inner, 1, State([], [2.0])) == Loop(num, Inner, Inner, 2, State(["+"], [2.0]))
  {
    var f := Inner;
    TrimIdentity(f);
    OperatorToken(f[1..]);
    var x := ExpressionElement(Operator, "+");
    StepPush(num, f, x, State([], [2.0]));
    assert [] + ["+"] == ["+"];
    Advance(num, f, 1, 2, State([], [2.0]), x, State(["+"], [2.0]));
  }

  lemma InnerStep2(num: Numerics)
    ensures Loop(num, Inner, Inner, 2, State(["+"], [2.0])) == Loop(num, Inner, Inner, 4, State([], [22.0]))
  {
    var f := Inner;
    TrimIdentity(f);
    var g := f[2..];
    DigitsEnd(g, 0, 2);
    NumberToken(g, false, 2);
    var t := g[..2];
    TwoDigits(t);
    WholeLiteral(t);
    var x := ExpressionElement(Number, t);
    StepNumber(num, f, x, State(["+"], [2.0]));
    AbsorbBinary(num, [], "+", [], 2.0, 20.0);
    assert [] + ["+"] == ["+"] && [] + [2.0] == [2.0] && [] + [22.0] == [22.0];
    Advance(num, f, 2, 4, State(["+"], [2.0]), x, State([], [22.0]));
  }

  lemma EvalInner(num: Numerics)
    ensures Eval(num, Inner) == Ok(22.0)
  {
    TrimIdentity(Inner);
    InnerStep0(num);
    InnerStep1(num);
    InnerStep2(num);
  }

  const Bracketed := "10*(2+20)-4"

  /** "10" then "*": the first two turns of the three bracket tests. */
  lemma TenTimes(num: Numerics, f: string)
    requires 4 < |f| && Trim(f) == f
    requires f[0] == '1' && f[1] == '0' && f[2] == '*' && f[3] == '('
    ensures Loop(num, f, f, 0, State([], [])) == Loop(num, f, f, 3, State(["*"], [10.0]))
  {
    assert f[0..] == f;
    DigitsEnd(f, 0, 2);
    NumberToken(f, true, 2);
    var t := f[..2];
    assert t == "10";
    TwoDigits(t);
    WholeLiteral(t);
    var x := ExpressionElement(SignedNumber, t);
    StepNumber(num, f, x, State([], []));
    AbsorbPush(num, [], 10.0);
    assert [] + [10.0] == [10.0];
    Advance(num, f, 0, 2, State([], []), x, State([], [10.0]));
    OperatorToken(f[2..]);
    var y := ExpressionElement(Operator, "*");
    StepPush(num, f, y, State([], [10.0]));
    assert [] + ["*"] == ["*"];
    Advance(num, f, 2, 3, State([], [10.0]), y, State(["*"], [10.0]));
  }

  lemma BracketedStep2(num: Numerics)
    ensures Loop(num, Bracketed, Bracketed, 3, State(["*"], [10.0])) == Loop(num, Bracketed, Bracketed, 9, State([], [220.0]))
  {
    var f := Bracketed;
    TrimIdentity(f);
    var g := f[3..];
    BracketToken(g, false, 6);
    var x := ExpressionElement(SubExpressionInBrackets, g[..6]);
    assert x.text == "(2+20)";
    assert x.text[1..5] == Inner;
    EvalInner(num);
    StepBracket(num, f, x, State(["*"], [10.0]), 22.0);
    AbsorbBinary(num, [], "*", [], 10.0, 22.0);
    assert [] + ["*"] == ["*"] && [] + [10.0] == [10.0] && [] + [220.0] == [220.0];
    Advance(num, f, 3, 9, State(["*"], [10.0]), x, State([], [220.0]));
  }

  lemma BracketedStep3(num: Numerics)
    ensures Loop(num, Bracketed, Bracketed, 9, State([], [220.0])) == Loop(num, Bracketed, Bracketed, 10, State(["-"], [220.0]))
  {
    var f := Bracketed;
    TrimIdentity(f);
    OperatorToken(f[9..]);
    var x := ExpressionElement(Operator, "-");
    StepPush(num, f, x, State([], [220.0]));
    assert [] + ["-"] == ["-"];
    Advance(num, f, 9, 10, State([], [220.0]), x, State(["-"], [220.0]));
  }

  lemma BracketedStep4(num: Numerics)
    ensures Loop(num, Bracketed, Bracketed, 10, State(["-"], [220.0])) == Loop(num, Bracketed, Bracketed, 11, State([], [216.0]))
  {
    var f := Bracketed;
    TrimIdentity(f);
    var g := f[10..];
    DigitsEnd(g, 0, 1);
    NumberToken(g, false, 1);
    var t := g[..1];
    OneDigit(t);
    WholeLiteral(t);
    var x := ExpressionElement(Number, t);
    StepNumber(num, f, x, State(["-"], [220.0]));
    AbsorbBinary(num, [], "-", [], 220.0, 4.0);
    assert [] + ["-"] == ["-"] && [] + [220.0] == [220.0] && [] + [216.0] == [216.0];
    Advance(num, f, 10, 11, State(["-"], [220.0]), x, State([], [216.0]));
  }

  /** evaluate("10*(2+20)-4") is 216. */
  lemma EvalBracketed(num: Numerics)
    ensures Eval(num, Bracketed) == Ok(216.0)
  {
    TrimIdentity(Bracketed);
    TenTimes(num, Bracketed);
    BracketedStep2(num);
    BracketedStep3(num);
    BracketedStep4(num);
  }

  // ---------------------------------------------------------------------------
  // evaluate("10*(-2+20)-4") == 176 and evaluate("10*(-2+20)-sqrt(4)"): the
  // `-` at the start of a bracket group is a sign

  const SignedInner := "-2+20"

  lemma SignedInnerStep0(num: Numerics)
    ensures Loop(num, SignedInner, SignedInner, 0, State([], [])) == Loop(num, SignedInner, SignedInner, 2, State([], [-2.0]))
  {
    var f := SignedInner;
    TrimIdentity(f);
    assert f[0..] == f;
    DigitsEnd(f, 1, 2);
    MinusBeforeDigit(f);
    var t := f[..2];
    assert t[1..] == "2";
    OneDigit(t[1..]);
    NegativeLiteral(t);
    var x := ExpressionElement(SignedNumber, t);
    StepNumber(num, f, x, State([], []));
    AbsorbPush(num, [], -2.0);
    assert [] + [-2.0] == [-2.0];
    Advance(num, f, 0, 2, State([], []), x, State([], [-2.0]));
  }

  lemma SignedInnerStep1(num: Numerics)
    ensures Loop(num, SignedInner, SignedInner, 2, State([], [-2.0])) == Loop(num, SignedInner, SignedInner, 3, State(["+"], [-2.0]))
  {
    var f := SignedInner;
    TrimIdentity(f);
    OperatorToken(f[2..]);
    var x := ExpressionElement(Operator, "+");
    StepPush(num, f, x, State([], [-2.0]));
    assert [] + ["+"] == ["+"];
    Advance(num, f, 2, 3, State([], [-2.0]), x, State(["+"], [-2.0]));
  }

  lemma SignedInnerStep2(num: Numerics)
    ensures Loop(num, SignedInner, SignedInner, 3, State(["+"], [-2.0])) == Loop(num, SignedInner, SignedInner, 5, State([], [18.0]))
  {
    var f := SignedInner;
    TrimIdentity(f);
    var g := f[3..];
    DigitsEnd(g, 0, 2);
    NumberToken(g, false, 2);
    var t := g[..2];
    TwoDigits(t);
    WholeLiteral(t);
    var x := ExpressionElement(Number, t);
    StepNumber(num, f, x, State(["+"], [-2.0]));
    AbsorbBinary(num, [], "+", [], -2.0, 20.0);
    assert [] + ["+"] == ["+"] && [] + [-2.0] == [-2.0] && [] + [18.0] == [18.0];
    Advance(num, f, 3, 5, State(["+"], [-2.0]), x, State([], [18.0]));
  }

  lemma EvalSignedInner(num: Numerics)
    ensures Eval(num, SignedInner) == Ok(18.0)
  {
    TrimIdentity(SignedInner);
    SignedInnerStep0(num);
    SignedInnerStep1(num);
    SignedInnerStep2(num);
  }

  /** "(-2+20)" after "10*", then "-": turns three and four of the last two
      tests. */
  lemma SignedGroupThenMinus(num: Numerics, f: string)
    requires 11 < |f| && Trim(f) == f
    requires f[3] == '(' && f[4] == '-' && f[5] == '2' && f[6] == '+' && f[7] == '2' && f[8] == '0' && f[9] == ')'
    requires f[10] == '-'
    ensures Loop(num, f, f, 3, State(["*"], [10.0])) == Loop(num, f, f, 11, State(["-"], [180.0]))
  {
    var g := f[3..];
    assert g[..7] == "(-2+20)";
    BracketToken(g, false, 7);
    var x := ExpressionElement(SubExpressionInBrackets, g[..7]);
    assert x.text[1..6] == SignedInner;
    EvalSignedInner(num);
    StepBracket(num, f, x, State(["*"], [10.0]), 18.0);
    AbsorbBinary(num, [], "*", [], 10.0, 18.0);
    assert [] + ["*"] == ["*"] && [] + [10.0] == [10.0] && [] + [180.0] == [180.0];
    Advance(num, f, 3, 10, State(["*"], [10.0]), x, State([], [180.0]));
    OperatorToken(f[10..]);
    var y := ExpressionElement(Operator, "-");
    StepPush(num, f, y, State([], [180.0]));
    assert [] + ["-"] == ["-"];
    Advance(num, f, 10, 11, State([], [180.0]), y, State(["-"], [180.0]));
  }

  /** The first four turns of the last two tests. */
  lemma SignedBracketedPrefix(num: Numerics, f: string)
    requires 11 < |f| && Trim(f) == f
    requires f[0] == '1' && f[1] == '0' && f[2] == '*' && f[3] == '(' && f[4] == '-' && f[5] == '2'
    requires f[6] == '+' && f[7] == '2' && f[8] == '0' && f[9] == ')' && f[10] == '-'
    ensures Loop(num, f, f, 0, State([], [])) == Loop(num, f, f, 11, State(["-"], [180.0]))
  {
    TenTimes(num, f);
    SignedGroupThenMinus(num, f);
  }

  const SignedBracketed := "10*(-2+20)-4"

  lemma SignedBracketedStep4(num: Numerics)
    ensures Loop(num, SignedBracketed, SignedBracketed, 11, State(["-"], [180.0]))
            == Loop(num, SignedBracketed, SignedBracketed, 12, State([], [176.0]))
  {
    var f := SignedBracketed;
    TrimIdentity(f);
    var g := f[11..];
    DigitsEnd(g, 0, 1);
    NumberToken(g, false, 1);
    var t := g[..1];
    OneDigit(t);
    WholeLiteral(t);
    var x := ExpressionElement(Number, t);
    StepNumber(num, f, x, State(["-"], [180.0]));
    AbsorbBinary(num, [], "-", [], 180.0, 4.0);
    assert [] + ["-"] == ["-"] && [] + [180.0] == [180.0] && [] + [176.0] == [176.0];
    Advance(num, f, 11, 12, State(["-"], [180.0]), x, State([], [176.0]));
  }

  /** evaluate("10*(-2+20)-4") is 176. */
  lemma EvalSignedBracketed(num: Numerics)
    ensures Eval(num, SignedBracketed) == Ok(176.0)
  {
    var f := SignedBracketed;
    TrimIdentity(f);
    SignedBracketedPrefix(num, f);
    SignedBracketedStep4(num);
  }

  const Four := "4"

  lemma EvalFour(num: Numerics)
    ensures Eval(num, Four) == Ok(4.0)
  {
    var f := Four;
    TrimIdentity(f);
    assert f[0..] == f;
    DigitsEnd(f, 0, 1);
    NumberToken(f, true, 1);
    OneDigit(f);
    WholeLiteral(f);
    assert f[..1] == f;
    var x := ExpressionElement(SignedNumber, f);
    StepNumber(num, f, x, State([], []));
    AbsorbPush(num, [], 4.0);
    assert [] + [4.0] == [4.0];
    Advance(num, f, 0, 1, State([], []), x, State([], [4.0]));
  }

  /** The formula of the last test, written as the concatenation of two
      shorter strings. */
  const WithSqrt := "10*(-2+20)" + "-sqrt(4)"

  lemma WithSqrtStep4(num: Numerics)
    ensures Loop(num, WithSqrt, WithSqrt, 11, State(["-"], [180.0]))
            == Loop(num, WithSqrt, WithSqrt, 15, State(["-", "sqrt"], [180.0]))
  {
    var f := WithSqrt;
    TrimIdentity(f);
    var g := f[11..];
    FunctionNameToken(g, false, 4);
    var x := ExpressionElement(Function, g[..4]);
    assert x.text == "sqrt";
    StepPush(num, f, x, State(["-"], [180.0]));
    assert ["-"] + ["sqrt"] == ["-", "sqrt"];
    Advance(num, f, 11, 15, State(["-"], [180.0]), x, State(["-", "sqrt"], [180.0]));
  }

  lemma WithSqrtStep5(num: Numerics)
    ensures Loop(num, WithSqrt, WithSqrt, 15, State(["-", "sqrt"], [180.0]))
            == Loop(num, WithSqrt, WithSqrt, 18, State([], [180.0 - num.call("sqrt", 4.0)]))
  {
    var f := WithSqrt;
    TrimIdentity(f);
    var g := f[15..];
    BracketToken(g, false, 3);
    var x := ExpressionElement(SubExpressionInBrackets, g[..3]);
    assert x.text == "(4)";
    assert x.text[1..2] == Four;
    EvalFour(num);
    StepBracket(num, f, x, State(["-", "sqrt"], [180.0]), 4.0);
    AbsorbSqrt(num);
    Advance(num, f, 15, 18, State(["-", "sqrt"], [180.0]), x, State([], [180.0 - num.call("sqrt", 4.0)]));
  }

  /** The function on top is applied first, then the `-` below it. */
  lemma AbsorbSqrt(num: Numerics)
    ensures Absorb(num, State(["-", "sqrt"], [180.0]), 4.0) == Ok(State([], [180.0 - num.call("sqrt", 4.0)]))
  {
    assert ["-"] + ["sqrt"] == ["-", "sqrt"];
    ReduceChain(num, ["-"], ["sqrt"], [180.0], 4.0);
    var v := num.call("sqrt", 4.0);
    assert ApplyAll(num, ["sqrt"], 4.0) == v by {
      assert ["sqrt"][..0] == [];
    }
    assert [180.0][..0] + [180.0 - v] == [180.0 - v];
  }

  /** evaluate("10*(-2+20)-sqrt(4)") is 180 less the square root of 4. */
  lemma EvalWithSqrt(num: Numerics)
    ensures Eval(num, WithSqrt) == Ok(180.0 - num.call("sqrt", 4.0))
  {
    var f := WithSqrt;
    TrimIdentity(f);
    SignedBracketedPrefix(num, f);
    WithSqrtStep4(num);
    WithSqrtStep5(num);
  }

  // ---------------------------------------------------------------------------
  // evaluate("20+3*4") == 92: a `*`/`/` run that ends the formula is not a
  // sub-expression, so it is folded left to right like the rest

  const TrailingProduct := "20+3*4"

  lemma TrailingStep0(num: Numerics)
    ensures Loop(num, TrailingProduct, TrailingProduct, 0, State([], []))
            == Loop(num, TrailingProduct, TrailingProduct, 2, State([], [20.0]))
  {
    var f := TrailingProduct;
    TrimIdentity(f);
    assert f[0..] == f;
    DigitsEnd(f, 0, 2);
    NumberToken(f, true, 2);
    var t := f[..2];
    TwoDigits(t);
    WholeLiteral(t);
    var x := ExpressionElement(SignedNumber, t);
    StepNumber(num, f, x, State([], []));
    AbsorbPush(num, [], 20.0);
    assert [] + [20.0] == [20.0];
    Advance(num, f, 0, 2, State([], []), x, State([], [20.0]));
  }

  lemma TrailingStep1(num: Numerics)
    ensures Loop(num, TrailingProduct, TrailingProduct, 2, State([], [20.0]))
            == Loop(num, TrailingProduct, TrailingProduct, 3, State(["+"], [20.0]))
  {
    var f := TrailingProduct;
    TrimIdentity(f);
    OperatorToken(f[2..]);
    var x := ExpressionElement(Operator, "+");
    StepPush(num, f, x, State([], [20.0]));
    assert [] + ["+"] == ["+"];
    Advance(num, f, 2, 3, State([], [20.0]), x, State(["+"], [20.0]));
  }

  /** The run "3*4" spans the rest of the text: only its first number is
      read. */
  lemma TrailingStep2(num: Numerics)
    ensures Loop(num, TrailingProduct, TrailingProduct, 3, State(["+"], [20.0]))
            == Loop(num, TrailingProduct, TrailingProduct, 4, State([], [23.0]))
  {
    var f := TrailingProduct;
    TrimIdentity(f);
    var g := f[3..];
    DigitsEnd(g, 0, 1);
    DigitsEnd(g, 2, 3);
    NumberToken(g, false, 1);
    var t := g[..1];
    OneDigit(t);
    WholeLiteral(t);
    var x := ExpressionElement(Number, t);
    StepNumber(num, f, x, State(["+"], [20.0]));
    AbsorbBinary(num, [], "+", [], 20.0, 3.0);
    assert [] + ["+"] == ["+"] && [] + [20.0] == [20.0] && [] + [23.0] == [23.0];
    Advance(num, f, 3, 4, State(["+"], [20.0]), x, State([], [23.0]));
  }

  lemma TrailingStep3(num: Numerics)
    ensures Loop(num, TrailingProduct, TrailingProduct, 4, State([], [23.0]))
            == Loop(num, TrailingProduct, TrailingProduct, 5, State(["*"], [23.0]))
  {
    var f := TrailingProduct;
    TrimIdentity(f);
    OperatorToken(f[4..]);
    var x := ExpressionElement(Operator, "*");
    StepPush(num, f, x, State([], [23.0]));
    assert [] + ["*"] == ["*"];
    Advance(num, f, 4, 5, State([], [23.0]), x, State(["*"], [23.0]));
  }

  lemma TrailingStep4(num: Numerics)
    ensures Loop(num, TrailingProduct, TrailingProduct, 5, State(["*"], [23.0]))
            == Loop(num, TrailingProduct, TrailingProduct, 6, State([], [92.0]))
  {
    var f := TrailingProduct;
    TrimIdentity(f);
    var g := f[5..];
    DigitsEnd(g, 0, 1);
    NumberToken(g, false, 1);
    var t := g[..1];
    OneDigit(t);
    WholeLiteral(t);
    var x := ExpressionElement(Number, t);
    StepNumber(num, f, x, State(["*"], [23.0]));
    AbsorbBinary(num, [], "*", [], 23.0, 4.0);
    assert [] + ["*"] == ["*"] && [] + [23.0] == [23.0] && [] + [92.0] == [92.0];
    Advance(num, f, 5, 6, State(["*"], [23.0]), x, State([], [92.0]));
  }

  /** evaluate("20+3*4") is (20 + 3) * 4, not 20 + 3 * 4. */
  lemma EvalTrailingProduct(num: Numerics)
    ensures Eval(num, TrailingProduct) == Ok(92.0)
    ensures Eval(num, TrailingProduct) != Ok(20.0 + 3.0 * 4.0)
  {
    TrimIdentity(TrailingProduct);
    TrailingStep0(num);
    TrailingStep1(num);
    TrailingStep2(num);
    TrailingStep3(num);
    TrailingStep4(num);
  }

  // ---------------------------------------------------------------------------
  // evaluate("10++20") == 30: the second `+` stays on the operator stack,
  // and what is left there at the end is ignored

  const DoublePlus := "10++20"

  lemma DoublePlusStep0(num: Numerics)
    ensures Loop(num, DoublePlus, DoublePlus, 0, State([], []))
            == Loop(num, DoublePlus, DoublePlus, 2, State([], [10.0]))
  {
    var f := DoublePlus;
    TrimIdentity(f);
    assert f[0..] == f;
    DigitsEnd(f, 0, 2);
    NumberToken(f, true, 2);
    var t := f[..2];
    TwoDigits(t);
    WholeLiteral(t);
    var x := ExpressionElement(SignedNumber, t);
    StepNumber(num, f, x, State([], []));
    AbsorbPush(num, [], 10.0);
    assert [] + [10.0] == [10.0];
    Advance(num, f, 0, 2, State([], []), x, State([], [10.0]));
  }

  lemma DoublePlusStep1(num: Numerics)
    ensures Loop(num, DoublePlus, DoublePlus, 2, State([], [10.0]))
            == Loop(num, DoublePlus, DoublePlus, 3, State(["+"], [10.0]))
  {
    var f := DoublePlus;
    TrimIdentity(f);
    OperatorToken(f[2..]);
    var x := ExpressionElement(Operator, "+");
    StepPush(num, f, x, State([], [10.0]));
    assert [] + ["+"] == ["+"];
    Advance(num, f, 2, 3, State([], [10.0]), x, State(["+"], [10.0]));
  }

  lemma DoublePlusStep2(num: Numerics)
    ensures Loop(num, DoublePlus, DoublePlus, 3, State(["+"], [10.0]))
            == Loop(num, DoublePlus, DoublePlus, 4, State(["+", "+"], [10.0]))
  {
    var f := DoublePlus;
    TrimIdentity(f);
    OperatorToken(f[3..]);
    var x := ExpressionElement(Operator, "+");
    StepPush(num, f, x, State(["+"], [10.0]));
    assert ["+"] + ["+"] == ["+", "+"];
    Advance(num, f, 3, 4, State(["+"], [10.0]), x, State(["+", "+"], [10.0]));
  }

  lemma DoublePlusStep3(num: Numerics)
    ensures Loop(num, DoublePlus, DoublePlus, 4, State(["+", "+"], [10.0]))
            == Loop(num, DoublePlus, DoublePlus, 6, State(["+"], [30.0]))
  {
    var f := DoublePlus;
    TrimIdentity(f);
    var g := f[4..];
    DigitsEnd(g, 0, 2);
    NumberToken(g, false, 2);
    var t := g[..2];
    TwoDigits(t);
    WholeLiteral(t);
    var x := ExpressionElement(Number, t);
    StepNumber(num, f, x, State(["+", "+"], [10.0]));
    AbsorbBinary(num, ["+"], "+", [], 10.0, 20.0);
    assert ["+"] + ["+"] == ["+", "+"] && [] + [10.0] == [10.0] && [] + [30.0] == [30.0];
    Advance(num, f, 4, 6, State(["+", "+"], [10.0]), x, State(["+"], [30.0]));
  }

  /** evaluate("10++20") is 30, with one `+` left unused on the operator
      stack. */
  lemma EvalDoublePlus(num: Numerics)
    ensures Eval(num, DoublePlus) == Ok(30.0)
  {
    TrimIdentity(DoublePlus);
    DoublePlusStep0(num);
    DoublePlusStep1(num);
    DoublePlusStep2(num);
    DoublePlusStep3(num);
  }

  // ---------------------------------------------------------------------------
  // evaluate("foo(4)") fails: `foo` is read as a function name, but it is
  // not one of the listed functions

  const UnknownFunction := "foo(4)"

  /** evaluate("foo(4)") fails on the name `foo`. */
  lemma EvalUnknownFunction(num: Numerics)
    ensures Eval(num, UnknownFunction) == Err(UnexpectedText("foo"))
  {
    var f := UnknownFunction;
    TrimIdentity(f);
    assert f[0..] == f;
    FunctionNameToken(f, true, 3);
    var x := ExpressionElement(Function, f[..3]);
    assert x.text == "foo";
    assert "foo" !in ValidFunctionNames;
    NextElementFits(f, f, 0);
    LoopSteps(num, f, f, 0, State([], []), x, Some(UnexpectedText("foo")), State([], []), 3);
  }
}
