/** The positions that RegexTests.java expects `find()` to report, derived
    from the prefix matchers. */
module RegexExamples {
  import opened Wrappers
  import opened RegexPatterns

  lemma NumberInsideBrackets()
    ensures Find(NumberPattern, "(1234.678 + 10)") == Some(Span(1, 9))
  {
    var s := "(1234.678 + 10)";
    assert s[0..][0] == '(';
    var t := s[1..];
    assert t == "1234.678 + 10)";
    RunEndSkip(t, 0, 4, Digits);
    RunEndSkip(t, 5, 8, Digits);
    assert MatchAt(NumberPattern, t) == Some(8);
    FindLeftmost(NumberPattern, s, 1, 8);
  }

  lemma SignedNumberInsideBrackets()
    ensures Find(SignedNumberPattern, "(-1234.678 + 10)") == Some(Span(1, 10))
  {
    var s := "(-1234.678 + 10)";
    assert s[0..][0] == '(';
    var t := s[1..];
    assert t == "-1234.678 + 10)";
    RunEndSkip(t, 1, 5, Digits);
    RunEndSkip(t, 6, 9, Digits);
    assert MatchAt(SignedNumberPattern, t) == Some(9);
    FindLeftmost(SignedNumberPattern, s, 1, 9);
  }

  lemma OperatorInsideBrackets()
    ensures Find(OpsPattern, "(1234.678 + 10)") == Some(Span(10, 11))
  {
    var s := "(1234.678 + 10)";
    assert forall j | 0 <= j < 10 :: s[j..][0] == s[j] && !IsOperatorChar(s[j]);
    assert s[10..][0] == '+';
    FindLeftmost(OpsPattern, s, 10, 1);
  }

  /** No bracket group starts before the first `(`. */
  lemma NoBracketGroupBefore(s: string, i: nat)
    requires i <= |s|
    requires forall j | 0 <= j < i :: s[j] != '('
    ensures forall j | 0 <= j < i :: MatchAt(SubFormulaPattern, s[j..]).None?
  {
    forall j | 0 <= j < i
      ensures MatchAt(SubFormulaPattern, s[j..]).None?
    {
      assert s[j..][0] == s[j];
    }
  }

  // The longer inputs of the tests, written in pieces: "1234.678 + (10.2+20) + 10",
  // "1234.678 + (10.2+20.10-40.1*20.1/33.85) + 10", "20+1234.678*10+14" and
  // "1234.678*20.1/33.85".
  const ShortGroup := "(10.2+20) + 10"
  const ShortFormula := "1234.678 + " + ShortGroup
  const LongGroup := "(10.2+20.10-" + "40.1*20.1/" + "33.85) + 10"
  const LongFormula := "1234.678 + " + LongGroup
  const ProductTail := "1234.678*10+14"
  const SumWithProduct := "20+" + ProductTail
  const Product := "1234.678*" + "20.1/33.85"

  lemma SubFormula()
    ensures Find(SubFormulaPattern, ShortFormula) == Some(Span(11, 20))
  {
    var s := ShortFormula;
    NoBracketGroupBefore(s, 11);
    assert s[11..] == ShortGroup;
    RunEndSkip(ShortGroup, 1, 8, NonParens);
    assert MatchAt(SubFormulaPattern, ShortGroup) == Some(9);
    FindLeftmost(SubFormulaPattern, s, 11, 9);
  }

  lemma LongerSubFormula()
    ensures Find(SubFormulaPattern, LongFormula) == Some(Span(11, 39))
  {
    var s := LongFormula;
    NoBracketGroupBefore(s, 11);
    assert s[11..] == LongGroup;
    RunEndSkip(LongGroup, 1, 27, NonParens);
    assert MatchAt(SubFormulaPattern, LongGroup) == Some(28);
    FindLeftmost(SubFormulaPattern, s, 11, 28);
  }

  lemma HighPriorityExpressionInside()
    ensures Find(HighPriorityExpressionPattern, SumWithProduct) == Some(Span(3, 14))
  {
    var s := SumWithProduct;
    assert s[..2] == "20";
    NoProductAt(s, 2);
    assert s[1..][..1] == "0";
    NoProductAt(s[1..], 1);
    assert s[2..][0] == '+';
    assert s[3..] == ProductTail;
    ProductAt3();
    FindLeftmost(HighPriorityExpressionPattern, s, 3, 11);
  }

  lemma NoProductAt(s: string, k: nat)
    requires 0 < k < |s| && IsNumberText(s[..k]) && s[k] == '+'
    ensures MatchAt(HighPriorityExpressionPattern, s) == None
  {
    assert s[..k][0] == s[0];
    assert s[..k] == s[0..k];
    NumberStopsBefore(s, 0, k);
  }

  lemma ProductAt3()
    ensures MatchAt(HighPriorityExpressionPattern, ProductTail) == Some(11)
  {
    var s := ProductTail;
    RunEndSkip(s, 0, 4, Digits);
    RunEndSkip(s, 5, 8, Digits);
    RunEndSkip(s, 9, 11, Digits);
    assert NumberEnd(s, 0) == 8;
    assert NumberEnd(s, 9) == 11;
  }

  lemma HighPriorityExpressionWhole()
    ensures Find(HighPriorityExpressionPattern, Product) == Some(Span(0, 19))
  {
    var s := Product;
    WholeChain();
    assert s[0..] == s;
    assert MatchAt(HighPriorityExpressionPattern, s) == Some(19);
  }

  lemma WholeChain()
    ensures NumberEnd(Product, 0) == 8
    ensures ChainEnd(Product, 8) == 19
  {
    var s := Product;
    RunEndSkip(s, 0, 4, Digits);
    RunEndSkip(s, 5, 8, Digits);
    RunEndSkip(s, 9, 11, Digits);
    RunEndSkip(s, 12, 13, Digits);
    RunEndSkip(s, 14, 16, Digits);
    RunEndSkip(s, 17, 19, Digits);
    assert NumberEnd(s, 9) == 13;
    assert NumberEnd(s, 14) == 19;
  }

  lemma FunctionName()
    ensures Find(FunctionNamePattern, "sqrt(4)") == Some(Span(0, 5))
  {
  }
}
