/**
 * ExpressionResolver.java: a left-to-right evaluator that cuts a formula
 * into tokens with the six patterns and folds them over two stacks, one of
 * operator and function names and one of values.
 *
 * The classifier (`getNextElement`, `tryPattern`) is pure and modelled by
 * functions.  `compute` and `evaluate` change two `java.util.Stack`s in place
 * and are modelled by methods over `Stack` objects, each proved equal to a
 * function (`Reduce`, `Eval`) that states the same behaviour on values.
 */
module ExpressionResolver {
  import opened Wrappers
  import opened RegexPatterns
  import opened Numbers
  import opened Stacks

  // ---------------------------------------------------------------------------
  // Values of the source

  /** The categories `getNextElement` hands back. */
  datatype ElementType =
    | Number
    | SignedNumber
    | Operator
    | SubExpression             // a `*`/`/` run, evaluated on its own
    | SubExpressionInBrackets   // an innermost bracket group
    | Function                  // a function name, without its `(`

  datatype MatchingResult = MatchingResult(matched: bool, text: string, startPosition: int, endPosition: int)

  datatype ExpressionElement = ExpressionElement(elementType: ElementType, text: string)

  /** What makes `evaluate` throw. */
  datatype Error =
    | UnexpectedText(text: string)  // IllegalArgumentException: nothing matches, or an unknown function
    | EmptyStack                    // EmptyStackException from a `pop`

  /** The functions a formula may call. */
  const ValidFunctionNames: set<string> := {
    "sin", "cos", "tan", "asin", "acos", "atan",
    "toRadians", "toDegrees", "exp", "log", "log10", "sqrt", "cbrt",
    "ceil", "floor", "rint", "atan2", "pow", "round",
    "sinh", "cosh", "tanh"}

  /** The pattern each category is recognised by. */
  function PatternOf(t: ElementType): Pattern {
    match t
    case Number => NumberPattern
    case SignedNumber => SignedNumberPattern
    case Operator => OpsPattern
    case SubExpression => HighPriorityExpressionPattern
    case SubExpressionInBrackets => SubFormulaPattern
    case Function => FunctionNamePattern
  }

  /** The text the element's pattern matched: a function name lost its `(`. */
  function MatchedText(e: ExpressionElement): string {
    if e.elementType == Function then e.text + "(" else e.text
  }

  // ---------------------------------------------------------------------------
  // String.trim

  /** First index of `s` at or after `i` above U+0020, or `|s|`. */
  function TrimStart(s: string, i: nat): (st: nat)
    requires i <= |s|
    ensures i <= st <= |s|
    decreases |s| - i
  {
    if i < |s| && s[i] <= ' ' then TrimStart(s, i + 1) else i
  }

  /** Shortens `s[..len]` while it ends in a character up to U+0020, but not
      below `st`. */
  function TrimEnd(s: string, st: nat, len: nat): (e: nat)
    requires st <= len <= |s|
    ensures st <= e <= len
  {
    if st < len && s[len - 1] <= ' ' then TrimEnd(s, st, len - 1) else len
  }

  /** `String.trim()`: `s` without the characters up to U+0020 at either end. */
  function Trim(s: string): (r: string)
    ensures |r| <= |s|
  {
    var st := TrimStart(s, 0);
    s[st..TrimEnd(s, st, |s|)]
  }

  // ---------------------------------------------------------------------------
  // Classification

  /**
   * `tryPattern`: the match of `p` at offset 0, if any.  Java asks `find()`
   * for the leftmost match and keeps it only when it starts at 0; the lemma
   * TryPatternIsFindAtZero shows that this is the same question.
   */
  function TryPattern(p: Pattern, expression: string): (r: MatchingResult)
    ensures r.text == expression
    ensures r.matched ==> 0 == r.startPosition < r.endPosition <= |expression|
    ensures !r.matched ==> r.startPosition == -1 && r.endPosition == -1
  {
    match MatchAt(p, expression)
    case Some(n) => MatchingResult(true, expression, 0, n)
    case None => MatchingResult(false, expression, -1, -1)
  }

  /** `find() && start() == 0`, with `end()`, is what TryPattern computes. */
  lemma TryPatternIsFindAtZero(p: Pattern, expression: string)
    ensures TryPattern(p, expression).matched <==> Find(p, expression).Some? && Find(p, expression).value.start == 0
    ensures TryPattern(p, expression).matched ==> TryPattern(p, expression).endPosition == Find(p, expression).value.end
  {
    assert expression[0..] == expression;
  }

  /** A successful TryPattern reports the longest prefix in the pattern's
      language; a failed one means no prefix is in it. */
  lemma TryPatternLongest(p: Pattern, expression: string)
    ensures var r := TryPattern(p, expression);
      && (r.matched ==> InLanguage(p, expression[..r.endPosition]))
      && (r.matched ==> forall m | r.endPosition < m <= |expression| :: !InLanguage(p, expression[..m]))
      && (!r.matched ==> forall m | 0 <= m <= |expression| :: !InLanguage(p, expression[..m]))
  {
    MatchAtLongest(p, expression);
  }

  /** `ExpressionElement.of`: the matched part of the text. */
  function ElementOf(elementType: ElementType, m: MatchingResult): ExpressionElement
    requires 0 <= m.startPosition <= m.endPosition <= |m.text|
  {
    ExpressionElement(elementType, m.text[m.startPosition..m.endPosition])
  }

  /** The categories in the order `getNextElement` tries them. */
  const Priority: seq<ElementType> :=
    [SubExpressionInBrackets, SubExpression, SignedNumber, Number, Operator, Function]

  /**
   * One test of `getNextElement`: the element of category `kind` at the start
   * of `expression`, if the category's pattern matches there and its extra
   * condition holds -- a `*`/`/` run must leave text after it, a signed number
   * is only looked for when `matchSignedNumber` is set.  A function name is
   * cut before its `(`.
   */
  function TryKind(kind: ElementType, expression: string, matchSignedNumber: bool): (r: Option<ExpressionElement>)
    ensures r.Some? ==> r.value.elementType == kind && 0 < |r.value.text|
    ensures r.Some? ==> |MatchedText(r.value)| <= |expression|
    ensures r.Some? && kind == SubExpression ==> |r.value.text| < |expression|
    ensures r.Some? && kind == SubExpressionInBrackets ==> 2 <= |r.value.text|
    ensures r.Some? && kind == SignedNumber ==> matchSignedNumber
  {
    match MatchAt(PatternOf(kind), expression)
    case None => None
    case Some(n) =>
      if kind == SubExpression && n >= |expression| then None
      else if kind == SignedNumber && !matchSignedNumber then None
      else if kind == Function then
        MatchAtLongest(FunctionNamePattern, expression);
        var text := expression[..n - 1];
        assert text + "(" == expression[..n];
        Some(ExpressionElement(Function, text))
      else
        Some(ExpressionElement(kind, expression[..n]))
  }

  /**
   * TryKind is the step of `getNextElement` on what `tryPattern` reports: no
   * match, a `*`/`/` run that is not a strict prefix, or a signed number not
   * asked for gives nothing; a function name is the match without its last
   * character; any other element is `ExpressionElement.of` the match.
   */
  lemma TryKindIsTryPattern(kind: ElementType, expression: string, matchSignedNumber: bool)
    ensures var m := TryPattern(PatternOf(kind), expression);
      TryKind(kind, expression, matchSignedNumber) ==
        if !m.matched then None
        else if kind == SubExpression && m.endPosition - m.startPosition >= |expression| then None
        else if kind == SignedNumber && !matchSignedNumber then None
        else if kind == Function then Some(ExpressionElement(Function, m.text[m.startPosition..m.endPosition - 1]))
        else Some(ElementOf(kind, m))
  {
  }

  /** The element of the first category from `Priority[stage]` on whose test
      succeeds. */
  function FirstElement(expression: string, matchSignedNumber: bool, stage: nat): (r: Result<ExpressionElement, Error>)
    requires stage <= |Priority|
    ensures r.Ok? ==> 0 < |r.value.text|
    ensures r.Ok? ==> |MatchedText(r.value)| <= |expression|
    ensures r.Ok? && r.value.elementType == SubExpression ==> |r.value.text| < |expression|
    ensures r.Ok? && r.value.elementType == SubExpressionInBrackets ==> 2 <= |r.value.text|
    ensures r.Ok? && r.value.elementType == SignedNumber ==> matchSignedNumber
    ensures r.Err? ==> r.error == UnexpectedText(expression)
    decreases |Priority| - stage
  {
    if stage == |Priority| then Err(UnexpectedText(expression))
    else
      match TryKind(Priority[stage], expression, matchSignedNumber)
      case Some(e) => Ok(e)
      case None => FirstElement(expression, matchSignedNumber, stage + 1)
  }

  /**
   * `getNextElement`: the first token of `expression`, or UnexpectedText
   * when no category accepts it.
   */
  function NextElement(expression: string, matchSignedNumber: bool): (r: Result<ExpressionElement, Error>)
    ensures r.Ok? ==> 0 < |r.value.text| && |MatchedText(r.value)| <= |expression|
    ensures r.Ok? && r.value.elementType == SubExpression ==> |r.value.text| < |expression|
    ensures r.Ok? && r.value.elementType == SubExpressionInBrackets ==> 2 <= |r.value.text|
    ensures r.Ok? && r.value.elementType == SignedNumber ==> matchSignedNumber
    ensures r.Err? ==> r.error == UnexpectedText(expression)
  {
    FirstElement(expression, matchSignedNumber, 0)
  }

  /** What FirstElement returns is what the test of its category returned. */
  lemma {:induction false} FirstElementFound(expression: string, matchSignedNumber: bool, stage: nat)
    requires stage <= |Priority|
    ensures FirstElement(expression, matchSignedNumber, stage).Ok? ==>
      var e := FirstElement(expression, matchSignedNumber, stage).value;
      TryKind(e.elementType, expression, matchSignedNumber) == Some(e)
    decreases |Priority| - stage
  {
    if stage < |Priority| && TryKind(Priority[stage], expression, matchSignedNumber).None? {
      FirstElementFound(expression, matchSignedNumber, stage + 1);
    }
  }

  /**
   * A successful test yields the longest prefix of the text in the language
   * of its category (a function name together with its `(`).
   */
  lemma {:induction false} TryKindInLanguage(kind: ElementType, expression: string, matchSignedNumber: bool)
    ensures TryKind(kind, expression, matchSignedNumber).Some? ==>
      var e := TryKind(kind, expression, matchSignedNumber).value;
      && InLanguage(PatternOf(kind), MatchedText(e))
      && forall m | |MatchedText(e)| < m <= |expression| :: !InLanguage(PatternOf(kind), expression[..m])
  {
    MatchAtLongest(PatternOf(kind), expression);
  }

  /**
   * Every element is the longest prefix of the text in the language of its
   * category (a function name together with its `(`).
   */
  lemma {:induction false} NextElementInLanguage(expression: string, matchSignedNumber: bool)
    ensures NextElement(expression, matchSignedNumber).Ok? ==>
      var e := NextElement(expression, matchSignedNumber).value;
      && InLanguage(PatternOf(e.elementType), MatchedText(e))
      && forall m | |MatchedText(e)| < m <= |expression| :: !InLanguage(PatternOf(e.elementType), expression[..m])
  {
    var r := NextElement(expression, matchSignedNumber);
    FirstElementFound(expression, matchSignedNumber, 0);
    if r.Ok? {
      TryKindInLanguage(r.value.elementType, expression, matchSignedNumber);
    }
  }

  // ---------------------------------------------------------------------------
  // compute

  predicate IsBinaryOperator(op: string) {
    op == "+" || op == "-" || op == "*" || op == "/" || op == "%"
  }

  function ApplyBinary(num: Numerics, op: string, lhs: real, rhs: real): real
    requires IsBinaryOperator(op)
  {
    if op == "+" then lhs + rhs
    else if op == "-" then lhs - rhs
    else if op == "*" then lhs * rhs
    else if op == "/" then num.divide(lhs, rhs)
    else num.remainder(lhs, rhs)
  }

  /** The two stacks, tops last. */
  datatype State = State(ops: seq<string>, values: seq<real>)

  /**
   * `compute(ops, values, next)`: pops an operator; a binary one replaces the
   * top value by `top op next`; a listed function is applied to `next` and
   * the result is reduced against the next operator, or pushed when none is
   * left; any other name is dropped.  Operators are only ever popped.
   */
  function Reduce(num: Numerics, ops: seq<string>, values: seq<real>, next: real): (r: Result<State, Error>)
    ensures r.Ok? ==> |r.value.ops| < |ops| && r.value.ops == ops[..|r.value.ops|]
    ensures r.Ok? ==> |r.value.values| <= |values| + 1
    decreases |ops|
  {
    if ops == [] then Err(EmptyStack)
    else
      var operation := ops[|ops| - 1];
      var rest := ops[..|ops| - 1];
      if IsBinaryOperator(operation) then
        if values == [] then Err(EmptyStack)
        else Ok(State(rest, values[..|values| - 1] + [ApplyBinary(num, operation, values[|values| - 1], next)]))
      else if operation in ValidFunctionNames then
        var value := num.call(operation, next);
        if rest != [] then Reduce(num, rest, values, value) else Ok(State(rest, values + [value]))
      else
        Ok(State(rest, values))
  }

  /** What `evaluate` does with a value: reduce it against the top operator,
      or push it when there is none. */
  function Absorb(num: Numerics, st: State, value: real): (r: Result<State, Error>)
    ensures r.Ok? ==> |r.value.ops| <= |st.ops| && r.value.ops == st.ops[..|r.value.ops|]
    ensures r.Ok? ==> |r.value.values| <= |st.values| + 1
    ensures st.ops == [] ==> r.Ok?
  {
    if st.ops != [] then Reduce(num, st.ops, st.values, value) else Ok(State(st.ops, st.values + [value]))
  }

  // ---------------------------------------------------------------------------
  // evaluate

  /**
   * What the loop knows of an element found with at most `room` characters
   * left: its text is not empty, a `*`/`/` run is shorter than that, a
   * bracket group has its two brackets, a number is a literal and an
   * operator one of the five.
   */
  ghost predicate ElementWithin(e: ExpressionElement, room: nat) {
    && 0 < |e.text| <= room
    && (e.elementType == SubExpression ==> |e.text| < room)
    && (e.elementType == SubExpressionInBrackets ==> 2 <= |e.text|)
    && (e.elementType == Number || e.elementType == SignedNumber ==> IsSignedNumberText(e.text))
    && (e.elementType == Operator ==> IsBinaryOperator(e.text))
  }

  /** `evaluate(formula)`. */
  function Eval(num: Numerics, formula: string): Result<real, Error>
    decreases |formula|, 2
  {
    Loop(num, formula, Trim(formula), 0, State([], []))
  }

  /**
   * The `while` loop of `evaluate` from `offset` on: it runs while `offset`
   * is below the length of the untrimmed `formula`, reads the next element
   * of `trimmed` at `offset` and steps past it; at the end the top value
   * (or 0) is the result.
   */
  function Loop(num: Numerics, formula: string, trimmed: string, offset: nat, st: State): Result<real, Error>
    requires |trimmed| <= |formula| && offset <= |trimmed|
    decreases |formula|, 1, |formula| - offset, 1
  {
    if offset >= |formula| then
      Ok(if st.values == [] then 0.0 else st.values[|st.values| - 1])
    else
      Iterate(num, formula, trimmed, offset, st)
  }

  /** A turn of the loop at `offset` below the length of `formula`, then the
      rest of the loop. */
  function Iterate(num: Numerics, formula: string, trimmed: string, offset: nat, st: State): Result<real, Error>
    requires |trimmed| <= |formula| && offset <= |trimmed| && offset < |formula|
    decreases |formula|, 1, |formula| - offset, 0
  {
    NextElementWithin(trimmed[offset..], offset == 0);
    match NextElement(trimmed[offset..], offset == 0)
    case Err(e) => Err(e)
    case Ok(element) =>
      match Step(num, formula, element, st)
      case Err(e) => Err(e)
      case Ok(st') => Loop(num, formula, trimmed, offset + |element.text|, st')
  }

  /** Operators and function names go to the operator stack; the other
      categories stand for a value. */
  predicate IsPushed(t: ElementType) {
    t == Operator || t == Function
  }

  /**
   * The `switch` of `evaluate` on one element, as a change of the stacks: a
   * value is absorbed, an operator or a listed function name is pushed, any
   * other function name is rejected.
   */
  function Step(num: Numerics, formula: string, element: ExpressionElement, st: State): (r: Result<State, Error>)
    requires ElementWithin(element, |formula|)
    ensures element.elementType == Function ==> (r.Ok? <==> element.text in ValidFunctionNames)
    ensures r.Ok? && IsPushed(element.elementType) ==> r.value.ops == st.ops + [element.text] && r.value.values == st.values
    ensures r.Ok? && !IsPushed(element.elementType) ==> |r.value.ops| <= |st.ops| && r.value.ops == st.ops[..|r.value.ops|]
    decreases |formula|, 0, 1
  {
    if IsPushed(element.elementType) then
      if element.elementType == Function && element.text !in ValidFunctionNames then
        Err(UnexpectedText(element.text))
      else
        Ok(State(st.ops + [element.text], st.values))
    else
      match ValueOf(num, formula, element)
      case Err(e) => Err(e)
      case Ok(v) => Absorb(num, st, v)
  }

  /** The value an element stands for: a number literal, or what `evaluate`
      makes of a `*`/`/` run or of the inside of a bracket group. */
  function ValueOf(num: Numerics, formula: string, element: ExpressionElement): Result<real, Error>
    requires ElementWithin(element, |formula|) && !IsPushed(element.elementType)
    decreases |formula|, 0, 0
  {
    if element.elementType == SubExpression then Eval(num, element.text)
    else if element.elementType == SubExpressionInBrackets then Eval(num, element.text[1..|element.text| - 1])
    else Ok(ParseNumber(element.text))
  }

  /** Whatever NextElement finds fits in the text it was given. */
  lemma {:induction false} NextElementWithin(expression: string, matchSignedNumber: bool)
    ensures NextElement(expression, matchSignedNumber).Ok? ==>
      ElementWithin(NextElement(expression, matchSignedNumber).value, |expression|)
  {
    var next := NextElement(expression, matchSignedNumber);
    NextElementInLanguage(expression, matchSignedNumber);
    if next.Ok? && next.value.elementType == Operator {
      var c := next.value.text[0];
      assert next.value.text == [c];
      assert c == '+' || c == '-' || c == '*' || c == '/' || c == '%';
    }
  }

  // ---------------------------------------------------------------------------
  // The methods

  /** Every name on the operator stack is an operator or a listed function. */
  predicate OpsWellFormed(ops: seq<string>) {
    forall i | 0 <= i < |ops| :: IsBinaryOperator(ops[i]) || ops[i] in ValidFunctionNames
  }

  /** `compute`, on the two stacks. */
  method Compute(num: Numerics, ops: Stack<string>, values: Stack<real>, nextValue: real) returns (err: Option<Error>)
    modifies ops, values
    ensures Reduce(num, old(ops.items), old(values.items), nextValue)
            == if err.None? then Ok(State(ops.items, values.items)) else Err(err.value)
    ensures err.None? && OpsWellFormed(old(ops.items)) ==> OpsWellFormed(ops.items)
    decreases |ops.items|
  {
    var popped := ops.Pop();
    if popped.None? {
      return Some(EmptyStack);
    }
    var operation := popped.value;
    if IsBinaryOperator(operation) {
      var lhs := values.Pop();
      if lhs.None? {
        return Some(EmptyStack);
      }
      values.Push(ApplyBinary(num, operation, lhs.value, nextValue));
      err := None;
    } else if operation in ValidFunctionNames {
      var value := num.call(operation, nextValue);
      var empty := ops.Empty();
      if !empty {
        err := Compute(num, ops, values, value);
      } else {
        values.Push(value);
        err := None;
      }
    } else {
      err := None;
    }
  }

  /**
   * What `evaluate` does with a value, written out three times in its loop:
   * `compute` against the operators when there are any, `push` otherwise.
   */
  method PushOrCompute(num: Numerics, ops: Stack<string>, values: Stack<real>, value: real) returns (err: Option<Error>)
    modifies ops, values
    ensures Absorb(num, State(old(ops.items), old(values.items)), value)
            == if err.None? then Ok(State(ops.items, values.items)) else Err(err.value)
    ensures err.None? && OpsWellFormed(old(ops.items)) ==> OpsWellFormed(ops.items)
  {
    var empty := ops.Empty();
    if !empty {
      err := Compute(num, ops, values, value);
    } else {
      values.Push(value);
      err := None;
    }
  }

  /** The element found at `offset` lies within the trimmed formula. */
  lemma {:induction false} NextElementFits(formula: string, trimmed: string, offset: nat)
    requires |trimmed| <= |formula| && offset <= |trimmed|
    ensures var next := NextElement(trimmed[offset..], offset == 0);
      next.Ok? ==> offset + |next.value.text| <= |trimmed| && ElementWithin(next.value, |formula|)
  {
    NextElementWithin(trimmed[offset..], offset == 0);
  }

  /** The loop stops with the classifier's error. */
  lemma {:induction false} LoopStops(num: Numerics, formula: string, trimmed: string, offset: nat, st: State)
    requires |trimmed| <= |formula| && offset <= |trimmed| && offset < |formula|
    requires NextElement(trimmed[offset..], offset == 0).Err?
    ensures Iterate(num, formula, trimmed, offset, st) == Err(NextElement(trimmed[offset..], offset == 0).error)
  {
  }

  /** One turn of the loop: the element at `offset`, then the step it makes,
      which either fails with `err` or leaves the stacks as `after` and the
      loop to go on from `next`. */
  lemma {:induction false} LoopSteps(num: Numerics, formula: string, trimmed: string, offset: nat, st: State,
                                     element: ExpressionElement, err: Option<Error>, after: State, next: nat)
    requires |trimmed| <= |formula| && offset <= |trimmed| && offset < |formula|
    requires NextElement(trimmed[offset..], offset == 0) == Ok(element)
    requires next == offset + |element.text| <= |trimmed| && ElementWithin(element, |formula|)
    requires Step(num, formula, element, st) == if err.None? then Ok(after) else Err(err.value)
    ensures Iterate(num, formula, trimmed, offset, st)
            == if err.None? then Loop(num, formula, trimmed, next, after) else Err(err.value)
  {
    if err.None? {
      var rest := Loop(num, formula, trimmed, next, after);
      assert Iterate(num, formula, trimmed, offset, st) == rest;
    }
  }

  /**
   * The `switch` of `evaluate` on one element: a number or the value of a
   * sub-expression goes to the stacks, an operator or a listed function is
   * pushed, any other function name fails.
   */
  method Consume(num: Numerics, formula: string, element: ExpressionElement,
                 ops: Stack<string>, values: Stack<real>) returns (err: Option<Error>)
    requires ElementWithin(element, |formula|) && OpsWellFormed(ops.items)
    modifies ops, values
    ensures Step(num, formula, element, State(old(ops.items), old(values.items)))
            == if err.None? then Ok(State(ops.items, values.items)) else Err(err.value)
    ensures err.None? ==> OpsWellFormed(ops.items)
    decreases |formula|, 0
  {
    match element.elementType {
      case Number | SignedNumber =>
        err := PushOrCompute(num, ops, values, ParseNumber(element.text));
      case Operator =>
        ops.Push(element.text);
        err := None;
      case SubExpression =>
        var sub := Evaluate(num, element.text);
        if sub.Err? {
          return Some(sub.error);
        }
        err := PushOrCompute(num, ops, values, sub.value);
      case SubExpressionInBrackets =>
        var subExpression := element.text[1..|element.text| - 1];
        var sub := Evaluate(num, subExpression);
        if sub.Err? {
          return Some(sub.error);
        }
        err := PushOrCompute(num, ops, values, sub.value);
      case Function =>
        var functionName := element.text;
        if functionName in ValidFunctionNames {
          ops.Push(functionName);
          err := None;
        } else {
          err := Some(UnexpectedText(functionName));
        }
    }
  }

  /**
   * One turn of the `while` loop of `evaluate` once the element at `offset`
   * has been read: consume it.  On success the loop goes on from `next`,
   * past the element; otherwise `evaluate` fails with `err`.
   */
  method Turn(num: Numerics, formula: string, trimmed: string, offset: nat, element: ExpressionElement,
              ops: Stack<string>, values: Stack<real>) returns (next: nat, err: Option<Error>)
    requires |trimmed| <= |formula| && offset <= |trimmed| && offset < |formula|
    requires NextElement(trimmed[offset..], offset == 0) == Ok(element)
    requires OpsWellFormed(ops.items)
    modifies ops, values
    ensures err.None? ==> offset < next <= |trimmed| && OpsWellFormed(ops.items)
    ensures Iterate(num, formula, trimmed, offset, State(old(ops.items), old(values.items)))
            == if err.None? then Loop(num, formula, trimmed, next, State(ops.items, values.items)) else Err(err.value)
    decreases |formula|, 1
  {
    ghost var before := State(ops.items, values.items);
    NextElementFits(formula, trimmed, offset);
    err := Consume(num, formula, element, ops, values);
    next := offset + |element.text|;
    LoopSteps(num, formula, trimmed, offset, before, element, err, State(ops.items, values.items), next);
  }

  /** `evaluate`: the loop over the trimmed formula with two fresh stacks. */
  method Evaluate(num: Numerics, formula: string) returns (r: Result<real, Error>)
    ensures r == Eval(num, formula)
    decreases |formula|, 2
  {
    var trimmedFormula := Trim(formula);
    var offset := 0;
    var ops := new Stack<string>();
    var values := new Stack<real>();
    while offset < |formula|
      invariant offset <= |trimmedFormula|
      invariant OpsWellFormed(ops.items)
      invariant Loop(num, formula, trimmedFormula, offset, State(ops.items, values.items)) == Eval(num, formula)
      decreases |formula| - offset
    {
      var found := NextElement(trimmedFormula[offset..], offset == 0);
      if found.Err? {
        LoopStops(num, formula, trimmedFormula, offset, State(ops.items, values.items));
        return Err(found.error);
      }
      var err;
      offset, err := Turn(num, formula, trimmedFormula, offset, found.value, ops, values);
      if err.Some? {
        return Err(err.value);
      }
    }
    var empty := values.Empty();
    var result := 0.0;
    if !empty {
      var top := values.Pop();
      result := top.value;
    }
    return Ok(result);
  }
}
