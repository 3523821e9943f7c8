/**
 * What ExpressionResolver.java promises about its tokens, about `compute`
 * and about the result of `evaluate`, stated over the functions of the
 * model.
 */
module ResolverProperties {
  import opened Wrappers
  import opened RegexPatterns
  import opened ExpressionResolver

  // ---------------------------------------------------------------------------
  // Classification

  /** The place of a category in the order `getNextElement` tries them. */
  function Rank(t: ElementType): (r: nat)
    ensures r < |Priority| && Priority[r] == t
  {
    match t
    case SubExpressionInBrackets => 0
    case SubExpression => 1
    case SignedNumber => 2
    case Number => 3
    case Operator => 4
    case Function => 5
  }

  /** The search from `stage` on finds `x` exactly when the test of `x`'s
      category yields it and every test between `stage` and it fails. */
  lemma {:induction false} FirstElementIff(expression: string, matchSignedNumber: bool, stage: nat, x: ExpressionElement)
    requires stage <= |Priority|
    ensures FirstElement(expression, matchSignedNumber, stage) == Ok(x) <==>
      && stage <= Rank(x.elementType)
      && TryKind(x.elementType, expression, matchSignedNumber) == Some(x)
      && forall i | stage <= i < Rank(x.elementType) :: TryKind(Priority[i], expression, matchSignedNumber).None?
    decreases |Priority| - stage
  {
    if stage < |Priority| && TryKind(Priority[stage], expression, matchSignedNumber).None? {
      FirstElementIff(expression, matchSignedNumber, stage + 1, x);
    }
  }

  /** The search from `stage` on fails exactly when every test from there on
      fails. */
  lemma {:induction false} FirstElementFails(expression: string, matchSignedNumber: bool, stage: nat)
    requires stage <= |Priority|
    ensures FirstElement(expression, matchSignedNumber, stage).Err? <==>
      forall i | stage <= i < |Priority| :: TryKind(Priority[i], expression, matchSignedNumber).None?
    decreases |Priority| - stage
  {
    if stage < |Priority| && TryKind(Priority[stage], expression, matchSignedNumber).None? {
      FirstElementFails(expression, matchSignedNumber, stage + 1);
    }
  }

  /**
   * Priority: `getNextElement` returns `x` exactly when the test of `x`'s
   * category yields `x` and the test of every category tried before it
   * fails; it fails exactly when every test fails.
   */
  lemma NextElementPriority(expression: string, matchSignedNumber: bool, x: ExpressionElement)
    ensures NextElement(expression, matchSignedNumber) == Ok(x) <==>
      && TryKind(x.elementType, expression, matchSignedNumber) == Some(x)
      && forall t | Rank(t) < Rank(x.elementType) :: TryKind(t, expression, matchSignedNumber).None?
    ensures NextElement(expression, matchSignedNumber).Err? <==>
      forall t :: TryKind(t, expression, matchSignedNumber).None?
  {
    FirstElementIff(expression, matchSignedNumber, 0, x);
    FirstElementFails(expression, matchSignedNumber, 0);
    if forall t | Rank(t) < Rank(x.elementType) :: TryKind(t, expression, matchSignedNumber).None? {
      forall i | 0 <= i < Rank(x.elementType)
        ensures TryKind(Priority[i], expression, matchSignedNumber).None?
      {
        assert Rank(Priority[i]) == i;
      }
    }
    if forall i | 0 <= i < |Priority| :: TryKind(Priority[i], expression, matchSignedNumber).None? {
      forall t
        ensures TryKind(t, expression, matchSignedNumber).None?
      {
        assert Priority[Rank(t)] == t;
      }
    }
  }

  /** Nothing is left to read: the empty text matches no category. */
  lemma NothingInEmptyText(matchSignedNumber: bool)
    ensures NextElement([], matchSignedNumber) == Err(UnexpectedText([]))
  {
    FirstElementFails([], matchSignedNumber, 0);
    forall i | 0 <= i < |Priority|
      ensures TryKind(Priority[i], [], matchSignedNumber).None?
    {
      MatchAtLongest(PatternOf(Priority[i]), []);
    }
  }

  /** A text that starts with a digit holds no bracket group at its start. */
  lemma NoBracketGroupAtDigit(expression: string)
    requires |expression| > 0 && IsDigit(expression[0])
    ensures MatchAt(SubFormulaPattern, expression).None?
  {
  }

  /**
   * The strict-prefix rule: a `*`/`/` run at the start of the text is a
   * sub-expression when text follows it; when it spans the whole text the
   * classification falls through to the number at its start.
   */
  lemma StrictPrefixRule(expression: string, matchSignedNumber: bool)
    requires MatchAt(HighPriorityExpressionPattern, expression).Some?
    ensures var n := MatchAt(HighPriorityExpressionPattern, expression).value;
      n < |expression| ==> NextElement(expression, matchSignedNumber) == Ok(ExpressionElement(SubExpression, expression[..n]))
    ensures var n := MatchAt(HighPriorityExpressionPattern, expression).value;
      n == |expression| ==>
        NextElement(expression, matchSignedNumber)
        == Ok(ExpressionElement(if matchSignedNumber then SignedNumber else Number, expression[..NumberEnd(expression, 0)]))
  {
    var n := MatchAt(HighPriorityExpressionPattern, expression).value;
    NoBracketGroupAtDigit(expression);
    var x := if n < |expression| then ExpressionElement(SubExpression, expression[..n])
      else ExpressionElement(if matchSignedNumber then SignedNumber else Number, expression[..NumberEnd(expression, 0)]);
    NextElementPriority(expression, matchSignedNumber, x);
  }

  /**
   * A `-` before a digit is part of a signed number only at the start of a
   * call of `evaluate`; further on it is the operator.
   */
  lemma MinusBeforeDigit(expression: string)
    requires |expression| > 1 && expression[0] == '-' && IsDigit(expression[1])
    ensures NextElement(expression, true) == Ok(ExpressionElement(SignedNumber, expression[..NumberEnd(expression, 1)]))
    ensures NextElement(expression, false) == Ok(ExpressionElement(Operator, "-"))
  {
    MinusStartsNoGroup(expression);
    SignedMinus(expression);
    OperatorMinus(expression);
  }

  /** Neither a bracket group nor a `*`/`/` run starts with `-`. */
  lemma MinusStartsNoGroup(expression: string)
    requires |expression| > 0 && expression[0] == '-'
    ensures forall f :: TryKind(SubExpressionInBrackets, expression, f).None?
    ensures forall f :: TryKind(SubExpression, expression, f).None?
  {
  }

  lemma SignedMinus(expression: string)
    requires |expression| > 1 && expression[0] == '-' && IsDigit(expression[1])
    requires forall f :: TryKind(SubExpressionInBrackets, expression, f).None?
    requires forall f :: TryKind(SubExpression, expression, f).None?
    ensures NextElement(expression, true) == Ok(ExpressionElement(SignedNumber, expression[..NumberEnd(expression, 1)]))
  {
    var x := ExpressionElement(SignedNumber, expression[..NumberEnd(expression, 1)]);
    assert TryKind(SignedNumber, expression, true) == Some(x);
    NextElementPriority(expression, true, x);
  }

  lemma OperatorMinus(expression: string)
    requires |expression| > 1 && expression[0] == '-'
    requires forall f :: TryKind(SubExpressionInBrackets, expression, f).None?
    requires forall f :: TryKind(SubExpression, expression, f).None?
    ensures NextElement(expression, false) == Ok(ExpressionElement(Operator, "-"))
  {
    var x := ExpressionElement(Operator, "-");
    assert expression[..1] == "-";
    assert TryKind(Operator, expression, false) == Some(x);
    assert TryKind(Number, expression, false).None?;
    NextElementPriority(expression, false, x);
  }

  /**
   * A function token is a run of lower-case letters that the text continues
   * with `(`: the offset moves past the name only, and the next token starts
   * at the bracket.
   */
  lemma FunctionToken(expression: string, matchSignedNumber: bool)
    requires NextElement(expression, matchSignedNumber).Ok?
    requires NextElement(expression, matchSignedNumber).value.elementType == Function
    ensures var name := NextElement(expression, matchSignedNumber).value.text;
      && 0 < |name| < |expression|
      && expression[..|name|] == name
      && expression[|name|] == '('
      && forall i | 0 <= i < |name| :: IsLower(name[i])
  {
    var name := NextElement(expression, matchSignedNumber).value.text;
    NextElementInLanguage(expression, matchSignedNumber);
    assert MatchedText(NextElement(expression, matchSignedNumber).value) == name + "(";
    assert (name + "(")[|name|] == '(';
    assert forall i | 0 <= i < |name| :: (name + "(")[i] == name[i];
  }

  /** The listed names that hold a capital letter or a digit can never be
      read as function names. */
  lemma UnreachableFunctionNames(expression: string, matchSignedNumber: bool)
    requires NextElement(expression, matchSignedNumber).Ok?
    requires NextElement(expression, matchSignedNumber).value.elementType == Function
    ensures NextElement(expression, matchSignedNumber).value.text !in {"toRadians", "toDegrees", "log10", "atan2"}
  {
    FunctionToken(expression, matchSignedNumber);
    assert !IsLower("toRadians"[2]) && !IsLower("toDegrees"[2]) && !IsLower("log10"[3]) && !IsLower("atan2"[4]);
  }
}
