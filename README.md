# syntax_analyzer: the expression resolver in Dafny

This project models the core of `syntax_analyzer`, a left-to-right
evaluator of arithmetic formulas such as `10*(-2+20)-sqrt(4)`.

- `RegexPatterns.java` defines six regular expressions: a number, a signed
  number, an operator, an innermost bracket group, a `*`/`/` run and a
  function name.
- `ExpressionResolver.evaluate` trims the formula. It then cuts it, from
  offset 0 on, into elements with `getNextElement`, which tries the six
  patterns in a fixed order, each anchored at the current offset.
- It folds the elements over two `java.util.Stack`s, one of operator and
  function names and one of values. `compute` pops an operator and combines
  it with the top value. A function is applied to the value; its result is
  reduced against the next operator while one remains, and pushed otherwise.
- A `*`/`/` run and the inside of a bracket group are evaluated recursively.

The files:

- `regex_patterns.dfy`: each pattern as a language (a predicate on
  strings) and as a prefix matcher. Each matcher is proved to return
  exactly the longest prefix in the language, which is what
  `Matcher.find()` reports for these patterns when it matches at the
  start. `Find` is the leftmost match.
- `numbers.dfy`: `Double.parseDouble` on the texts the number patterns
  accept, as exact rationals.
- `stack.dfy`: `java.util.Stack` as a class over a `seq` field.
- `expression_resolver.dfy`: the classifier (`TryPattern`, `TryKind`,
  `NextElement`) as functions. `compute` and `evaluate` are methods over
  `Stack` objects (`Compute`, `Evaluate`), proved equal to functions that
  state the same behaviour on values (`Reduce`, `Eval`).
- `resolver_properties.dfy` and `evaluator_properties.dfy`: properties of
  classification, of `compute` and of the result of `evaluate`.
- `regex_tests.dfy` and `evaluator_tests.dfy`: the expectations of
  `RegexTests.java` and `ExpressionResolverTest.java`, derived from the
  model. There are also three behaviours of the code on formulas of the
  same kind. A `*`/`/` run that ends the formula gets no priority. Two
  operators in a row are both pushed, and `evaluate` returns the top value
  and ignores any operator still left on the stack. An unlisted function
  name makes `evaluate` fail.

Division, remainder and the `Math` functions come in through a `Numerics`
value (`divide`, `remainder`, `call`) and stay uninterpreted. Literals and
`+ - *` are exact reals, not doubles (see "Left out").

## Model

| member | source | states |
|---|---|---|
| RegexPatterns.NumberEndLongest | src/main/java/org/potehin/syntax/analyzer/RegexPatterns.java:5 | the end a number scan reaches bounds a text in the NUMBER language, and no longer prefix from the same start is in it |
| RegexPatterns.NumberStopsBefore | src/main/java/org/potehin/syntax/analyzer/RegexPatterns.java:5 | a number followed by a character that is neither a digit nor a dot ends exactly there |
| RegexPatterns.MatchNumber | src/main/java/org/potehin/syntax/analyzer/RegexPatterns.java:5 | at offset 0: a digit starts the match, which ends where the digit and dot scan stops; no match without a leading digit; a match ends within the text |
| RegexPatterns.MatchSignedNumber | src/main/java/org/potehin/syntax/analyzer/RegexPatterns.java:6 | at offset 0: a `-` joins the match only before a digit, otherwise NUMBER decides; a match ends within the text |
| RegexPatterns.MatchNumberLongest | src/main/java/org/potehin/syntax/analyzer/RegexPatterns.java:5 | the NUMBER matcher returns the longest prefix in `\d+(\.\d*)?`, or nothing when no prefix is in it |
| RegexPatterns.MatchSignedNumberLongest | src/main/java/org/potehin/syntax/analyzer/RegexPatterns.java:6 | the SIGNED_NUMBER matcher returns the longest prefix in `-?` NUMBER, or nothing |
| RegexPatterns.MatchOperator | src/main/java/org/potehin/syntax/analyzer/RegexPatterns.java:7 | at offset 0: one character when it is `+ - * / %`; a match ends within the text |
| RegexPatterns.MatchOperatorLongest | src/main/java/org/potehin/syntax/analyzer/RegexPatterns.java:7 | the OPS matcher returns the one-character prefix when it is one of `+ - * / %`, or nothing |
| RegexPatterns.MatchBracketGroup | src/main/java/org/potehin/syntax/analyzer/RegexPatterns.java:8 | at offset 0: a `(`, a run of characters other than brackets, and a `)` that closes it; a match ends within the text |
| RegexPatterns.MatchBracketGroupLongest | src/main/java/org/potehin/syntax/analyzer/RegexPatterns.java:8 | the SUB_FORMULA matcher returns the bracket group with no bracket inside that starts the text, or nothing |
| RegexPatterns.MatchFunctionName | src/main/java/org/potehin/syntax/analyzer/RegexPatterns.java:10 | at offset 0: a non-empty lower-case run directly followed by `(`, which the match includes, so a match is at least two characters |
| RegexPatterns.MatchFunctionNameLongest | src/main/java/org/potehin/syntax/analyzer/RegexPatterns.java:10 | the FUNCTION_NAME matcher returns the lower-case run with its `(`, or nothing |
| RegexPatterns.FactorChainCons | src/main/java/org/potehin/syntax/analyzer/RegexPatterns.java:9 | a chain of factors splits at its first `*`/`/` into a number and a shorter chain, in both directions |
| RegexPatterns.ChainEndSound | src/main/java/org/potehin/syntax/analyzer/RegexPatterns.java:9 | what the chain scan passes over is a chain of numbers joined by `*` or `/` |
| RegexPatterns.ChainEndLongest | src/main/java/org/potehin/syntax/analyzer/RegexPatterns.java:9 | every chain of factors from the same start ends at or before the end of the chain scan |
| RegexPatterns.MatchProduct | src/main/java/org/potehin/syntax/analyzer/RegexPatterns.java:9 | at offset 0: a number, then as many `*`/`/` numbers as follow, at least one; a match ends within the text |
| RegexPatterns.MatchProductLongest | src/main/java/org/potehin/syntax/analyzer/RegexPatterns.java:9 | the HIGH_PRIORITY_EXPRESSION matcher returns the longest prefix that is a number followed by one or more `*`/`/` numbers, or nothing |
| RegexPatterns.MatchAt | src/main/java/org/potehin/syntax/analyzer/RegexPatterns.java:5-10 | the matcher of each of the six patterns at offset 0; a match is never empty and ends within the text |
| RegexPatterns.MatchAtLongest | src/main/java/org/potehin/syntax/analyzer/RegexPatterns.java:5-10 | each of the six patterns matches at offset 0 exactly the longest prefix in its language |
| RegexPatterns.Find | src/main/java/org/potehin/syntax/analyzer/ExpressionResolver.java:157-158 | `Matcher.find()`: the reported match starts at the leftmost offset where the pattern matches, matches there, and no earlier offset matches; no result means no offset matches |
| RegexPatterns.FindLeftmost | src/main/java/org/potehin/syntax/analyzer/ExpressionResolver.java:157-158 | a match at `i` with no match before `i` is what `find()` reports |
| RegexExamples.NumberInsideBrackets | src/test/java/org/potehin/syntax/RegexTests.java:18-22 | NUMBER finds 1 to 9 in `(1234.678 + 10)` |
| RegexExamples.SignedNumberInsideBrackets | src/test/java/org/potehin/syntax/RegexTests.java:27-31 | SIGNED_NUMBER finds 1 to 10 in `(-1234.678 + 10)` |
| RegexExamples.OperatorInsideBrackets | src/test/java/org/potehin/syntax/RegexTests.java:36-40 | OPS finds 10 to 11 in `(1234.678 + 10)` |
| RegexExamples.NoBracketGroupBefore | src/test/java/org/potehin/syntax/RegexTests.java:46-55 | SUB_FORMULA matches nowhere before the first `(` |
| RegexExamples.SubFormula | src/test/java/org/potehin/syntax/RegexTests.java:46-50 | SUB_FORMULA finds 11 to 20 in `1234.678 + (10.2+20) + 10` |
| RegexExamples.LongerSubFormula | src/test/java/org/potehin/syntax/RegexTests.java:52-55 | SUB_FORMULA finds 11 to 39 in `1234.678 + (10.2+20.10-40.1*20.1/33.85) + 10` |
| RegexExamples.NoProductAt | src/test/java/org/potehin/syntax/RegexTests.java:60-64 | a number followed by `+` starts no `*`/`/` run |
| RegexExamples.ProductAt3 | src/test/java/org/potehin/syntax/RegexTests.java:60-64 | the run at offset 3 of `20+1234.678*10+14` is 11 characters long |
| RegexExamples.HighPriorityExpressionInside | src/test/java/org/potehin/syntax/RegexTests.java:60-64 | HIGH_PRIORITY_EXPRESSION finds 3 to 14 in `20+1234.678*10+14` |
| RegexExamples.WholeChain | src/test/java/org/potehin/syntax/RegexTests.java:66-69 | in `1234.678*20.1/33.85` the first number ends at 8 and the chain at 19 |
| RegexExamples.HighPriorityExpressionWhole | src/test/java/org/potehin/syntax/RegexTests.java:66-69 | HIGH_PRIORITY_EXPRESSION finds 0 to 19 in `1234.678*20.1/33.85` |
| RegexExamples.FunctionName | src/test/java/org/potehin/syntax/RegexTests.java:74-78 | FUNCTION_NAME finds 0 to 5 in `sqrt(4)` |
| Numbers.ParseNumber | src/main/java/org/potehin/syntax/analyzer/ExpressionResolver.java:39-41 | `Double.parseDouble` on a SIGNED_NUMBER text, without rounding: a leading `-` negates the rest, so the value is at most 0 with a `-` and at least 0 without |
| Numbers.ParseUnsigned | src/main/java/org/potehin/syntax/analyzer/ExpressionResolver.java:39-41 | `Double.parseDouble` on a NUMBER text: the integer digits plus the digits after the dot as a fraction; its own contract says the value is never negative, and `ParseUnsignedWhole` and `ParseUnsignedScaled` fix the value exactly |
| Numbers.DecimalTextRoundTrip | src/main/java/org/potehin/syntax/analyzer/ExpressionResolver.java:39-41 | the digits of a natural number read back as that number |
| Numbers.ParseDecimalText | src/main/java/org/potehin/syntax/analyzer/ExpressionResolver.java:39-41 | the decimal text of `n` is a NUMBER and `parseDouble` of it is `n` |
| Numbers.ParseUnsignedParts | src/main/java/org/potehin/syntax/analyzer/ExpressionResolver.java:39-41 | `parseDouble` of a literal lies between its integer part and that part plus one |
| Numbers.FractionBelowOne | src/main/java/org/potehin/syntax/analyzer/ExpressionResolver.java:39-41 | the digits after the dot add less than one |
| Numbers.DigitsValueAppend | src/main/java/org/potehin/syntax/analyzer/ExpressionResolver.java:39-41 | the digits of `b` written after those of `a` read as `a` times 10^|b| plus `b` |
| Numbers.ParseUnsignedAtPoint | src/main/java/org/potehin/syntax/analyzer/ExpressionResolver.java:39-41 | a literal with its point at `k` parses to the digits before the point plus the digits after it as a fraction |
| Numbers.ParseUnsignedWhole | src/main/java/org/potehin/syntax/analyzer/ExpressionResolver.java:39-41 | a literal without a point parses to the value of its digits |
| Numbers.ParseUnsignedScaled | src/main/java/org/potehin/syntax/analyzer/ExpressionResolver.java:39-41 | the literal `a.b` parses to the digits of `a` and `b` read as one whole number, divided by 10^|b| |
| Numbers.ParseTwoAndAHalf | src/main/java/org/potehin/syntax/analyzer/ExpressionResolver.java:39-41 | `Double.parseDouble("2.5")` is 2.5 |
| Numbers.ParseNegative | src/main/java/org/potehin/syntax/analyzer/ExpressionResolver.java:39-41 | a `-` in front of a literal negates its value |
| Stacks.Stack.constructor | src/main/java/org/potehin/syntax/analyzer/ExpressionResolver.java:31-32 | a new stack is empty |
| Stacks.Stack.Push | src/main/java/org/potehin/syntax/analyzer/ExpressionResolver.java:45 | `push` adds one item on top and keeps the rest |
| Stacks.Stack.Pop | src/main/java/org/potehin/syntax/analyzer/ExpressionResolver.java:85 | `pop` removes and returns the top item; on an empty stack it fails and changes nothing |
| Stacks.Stack.Empty | src/main/java/org/potehin/syntax/analyzer/ExpressionResolver.java:38 | `empty()` holds exactly when the stack has no item |
| ExpressionResolver.Trim | src/main/java/org/potehin/syntax/analyzer/ExpressionResolver.java:28 | `String.trim()` never makes a text longer |
| ExpressionResolver.TryPatternIsFindAtZero | src/main/java/org/potehin/syntax/analyzer/ExpressionResolver.java:156-163 | `tryPattern` matches exactly when `find()` reports a match starting at 0, and then ends where `find()` ends |
| ExpressionResolver.TryPatternLongest | src/main/java/org/potehin/syntax/analyzer/ExpressionResolver.java:156-163 | a match of `tryPattern` is the longest prefix in the pattern's language; no match means no prefix is in it |
| ExpressionResolver.TryPattern | src/main/java/org/potehin/syntax/analyzer/ExpressionResolver.java:156-163 | the result keeps the whole text; a match starts at 0 and ends within the text; no match reports -1 and -1 |
| ExpressionResolver.ElementOf | src/main/java/org/potehin/syntax/analyzer/ExpressionResolver.java:188-191 | `ExpressionElement.of`: the category with the matched part of the text, from start to end position |
| ExpressionResolver.TryKindIsTryPattern | src/main/java/org/potehin/syntax/analyzer/ExpressionResolver.java:121-151 | one test of `getNextElement` on the `tryPattern` result: the strict-prefix condition on a run, the `matchSignedNumber` gate, the function name cut before its `(`, `ExpressionElement.of` otherwise |
| ExpressionResolver.TryKind | src/main/java/org/potehin/syntax/analyzer/ExpressionResolver.java:121-151 | a found element has the tested category and a non-empty text; a run is shorter than the text; a bracket group has both brackets; a signed number only when asked for |
| ExpressionResolver.NextElement | src/main/java/org/potehin/syntax/analyzer/ExpressionResolver.java:121-154 | an element fits the text and is not empty; a run is a strict prefix; a signed number only at the start; otherwise the error names the text |
| ExpressionResolver.TryKindInLanguage | src/main/java/org/potehin/syntax/analyzer/ExpressionResolver.java:121-151 | what a test yields is the longest prefix in its pattern's language |
| ExpressionResolver.NextElementInLanguage | src/main/java/org/potehin/syntax/analyzer/ExpressionResolver.java:121-154 | every element (a function name with its `(`) is the longest prefix of the text in its category's language |
| ExpressionResolver.FirstElement | src/main/java/org/potehin/syntax/analyzer/ExpressionResolver.java:121-154 | the tests of `getNextElement` from one stage on, in source order: the first that yields an element decides; an element is non-empty and fits, a run is a strict prefix, a signed number only when asked for; when every test fails the error names the text (line 153) |
| ExpressionResolver.FirstElementFound | src/main/java/org/potehin/syntax/analyzer/ExpressionResolver.java:121-154 | what the search returns is what the test of its category returned |
| ExpressionResolver.NextElementWithin | src/main/java/org/potehin/syntax/analyzer/ExpressionResolver.java:34-76 | an element is non-empty and fits; a number is a literal `parseDouble` accepts; an operator is one of the five `compute` handles |
| ExpressionResolver.ApplyBinary | src/main/java/org/potehin/syntax/analyzer/ExpressionResolver.java:86-101 | the five arithmetic cases of `compute`: `+ - *` on exact values, `/` and `%` through the uninterpreted `divide` and `remainder` |
| ExpressionResolver.Reduce | src/main/java/org/potehin/syntax/analyzer/ExpressionResolver.java:84-119 | `compute` only pops operators, at least one, and pushes at most one value |
| ExpressionResolver.Compute | src/main/java/org/potehin/syntax/analyzer/ExpressionResolver.java:84-119 | `compute` on the two stacks leaves them as `Reduce` says, or fails as `Reduce` says; a stack of operators and listed names stays so |
| ExpressionResolver.PushOrCompute | src/main/java/org/potehin/syntax/analyzer/ExpressionResolver.java:38-42 | a value is reduced against the top operator, or pushed when there is none |
| ExpressionResolver.Absorb | src/main/java/org/potehin/syntax/analyzer/ExpressionResolver.java:38-42 | the compute-or-push of `evaluate`: a value is reduced against the operators when there are any, which only pops them and pushes at most one value, and is pushed, never failing, when there are none |
| ExpressionResolver.Step | src/main/java/org/potehin/syntax/analyzer/ExpressionResolver.java:35-75 | one case of the `switch` as a change of the stacks: an operator or a listed function name is pushed and the values are kept; a function name is accepted exactly when it is listed; a value only pops operators |
| ExpressionResolver.ValueOf | src/main/java/org/potehin/syntax/analyzer/ExpressionResolver.java:36-61 | the value an element stands for: `parseDouble` of a number, `evaluate` of a run, `evaluate` of the inside of a bracket group |
| ExpressionResolver.Consume | src/main/java/org/potehin/syntax/analyzer/ExpressionResolver.java:35-75 | the `switch` changes the stacks as `Step` says: a value is absorbed, an operator or listed function pushed, an unknown function rejected |
| ExpressionResolver.NextElementFits | src/main/java/org/potehin/syntax/analyzer/ExpressionResolver.java:34 | the element found at `offset` lies within the trimmed formula |
| ExpressionResolver.LoopStops | src/main/java/org/potehin/syntax/analyzer/ExpressionResolver.java:34 | when nothing matches, `evaluate` fails with the classifier's error |
| ExpressionResolver.LoopSteps | src/main/java/org/potehin/syntax/analyzer/ExpressionResolver.java:33-77 | one turn of the loop: the step of the element, then the loop from past the element |
| ExpressionResolver.Turn | src/main/java/org/potehin/syntax/analyzer/ExpressionResolver.java:34-76 | one turn of the `while` loop moves the offset forward within the trimmed text and continues the loop as `Iterate` says |
| ExpressionResolver.Eval | src/main/java/org/potehin/syntax/analyzer/ExpressionResolver.java:27-82 | `evaluate`: the loop over the trimmed text from offset 0 with two empty stacks |
| ExpressionResolver.Loop | src/main/java/org/potehin/syntax/analyzer/ExpressionResolver.java:33-81 | the `while` loop from one offset on: it runs while the offset is below the untrimmed length; at the end the top value, or 0 when there is none |
| ExpressionResolver.Iterate | src/main/java/org/potehin/syntax/analyzer/ExpressionResolver.java:34-76 | one turn: the next element of the trimmed text at the offset (signed numbers only at offset 0), its step, then the loop past the element; the first error ends the loop |
| ExpressionResolver.Evaluate | src/main/java/org/potehin/syntax/analyzer/ExpressionResolver.java:27-82 | `evaluate` with its two stacks returns exactly `Eval`: the loop bounded by the untrimmed length, the top value or 0 at the end |
| ResolverProperties.Rank | src/main/java/org/potehin/syntax/analyzer/ExpressionResolver.java:121-151 | each category has one place in the order of the tests |
| ResolverProperties.FirstElementIff | src/main/java/org/potehin/syntax/analyzer/ExpressionResolver.java:121-154 | the search from a test on yields `x` iff the test of `x`'s category yields it and every test between fails |
| ResolverProperties.FirstElementFails | src/main/java/org/potehin/syntax/analyzer/ExpressionResolver.java:121-154 | the search from a test on fails iff every later test fails |
| ResolverProperties.NextElementPriority | src/main/java/org/potehin/syntax/analyzer/ExpressionResolver.java:121-154 | `getNextElement` returns `x` iff its category's test yields `x` and every earlier category's test fails; it throws iff every test fails |
| ResolverProperties.NothingInEmptyText | src/main/java/org/potehin/syntax/analyzer/ExpressionResolver.java:153 | the empty text matches no category and is rejected |
| ResolverProperties.NoBracketGroupAtDigit | src/main/java/org/potehin/syntax/analyzer/ExpressionResolver.java:123-126 | a text starting with a digit holds no bracket group at its start |
| ResolverProperties.StrictPrefixRule | src/main/java/org/potehin/syntax/analyzer/ExpressionResolver.java:127-141 | a `*`/`/` run that leaves text is a sub-expression; one that spans the text falls through to the number at its start |
| ResolverProperties.MinusBeforeDigit | src/main/java/org/potehin/syntax/analyzer/ExpressionResolver.java:132-145 | `-` before a digit starts a signed number at offset 0 and is the operator `-` elsewhere |
| ResolverProperties.MinusStartsNoGroup | src/main/java/org/potehin/syntax/analyzer/ExpressionResolver.java:123-131 | neither a bracket group nor a run starts with `-` |
| ResolverProperties.FunctionToken | src/main/java/org/potehin/syntax/analyzer/ExpressionResolver.java:147-151 | a function element is a non-empty lower-case prefix of the text that the text continues with `(` |
| ResolverProperties.UnreachableFunctionNames | src/main/java/org/potehin/syntax/analyzer/ExpressionResolver.java:21-25 | `toRadians`, `toDegrees`, `log10` and `atan2` are listed but can never be read as function names |
| EvaluatorProperties.ReduceBinary | src/main/java/org/potehin/syntax/analyzer/ExpressionResolver.java:85-101 | a binary operator on top replaces the top value by `top op next`, keeps the rest of both stacks, and fails on an empty value stack |
| EvaluatorProperties.ReduceNoOperator | src/main/java/org/potehin/syntax/analyzer/ExpressionResolver.java:85 | `compute` on an empty operator stack fails |
| EvaluatorProperties.ReduceChain | src/main/java/org/potehin/syntax/analyzer/ExpressionResolver.java:102-113 | functions on top are applied innermost first; the result is reduced against what lies below them, or pushed when nothing does |
| EvaluatorProperties.StepKeepsOpsWellFormed | src/main/java/org/potehin/syntax/analyzer/ExpressionResolver.java:44-71 | only operators and listed function names reach the operator stack |
| EvaluatorProperties.TrimIdentity | src/main/java/org/potehin/syntax/analyzer/ExpressionResolver.java:28 | a text is its own trim iff it is empty or starts and ends above U+0020 |
| EvaluatorProperties.TrimStartStops | src/main/java/org/potehin/syntax/analyzer/ExpressionResolver.java:28 | trimming skips exactly the leading characters up to U+0020 |
| EvaluatorProperties.TrimEndStops | src/main/java/org/potehin/syntax/analyzer/ExpressionResolver.java:28 | every character dropped from the end is at most U+0020, and the last character kept is above U+0020 unless nothing is kept |
| EvaluatorProperties.TrimIdempotent | src/main/java/org/potehin/syntax/analyzer/ExpressionResolver.java:28 | trimming twice is trimming once |
| EvaluatorProperties.TrimShortens | src/main/java/org/potehin/syntax/analyzer/ExpressionResolver.java:28 | a trim that changes the text makes it shorter |
| EvaluatorProperties.EvalEmpty | src/main/java/org/potehin/syntax/analyzer/ExpressionResolver.java:29-33 | `evaluate("")` is 0 |
| EvaluatorProperties.LoopFailsWhenShorter | src/main/java/org/potehin/syntax/analyzer/ExpressionResolver.java:33-34 | with a trimmed text shorter than the loop bound, the loop always ends in an error |
| EvaluatorProperties.UntrimmedFormulaFails | src/main/java/org/potehin/syntax/analyzer/ExpressionResolver.java:28-34 | a formula that differs from its trim always fails |
| EvaluatorProperties.PaddedFormulaFails | src/main/java/org/potehin/syntax/analyzer/ExpressionResolver.java:28-34 | a formula that starts or ends with a blank (a blank-only one too) fails |
| EvaluatorExamples.NumberToken | src/main/java/org/potehin/syntax/analyzer/ExpressionResolver.java:127-141 | a number that starts no run with text after it is read as a signed number at the start and as a number elsewhere |
| EvaluatorExamples.OperatorToken | src/main/java/org/potehin/syntax/analyzer/ExpressionResolver.java:142-145 | an operator character after the start is read as that operator |
| EvaluatorExamples.BracketToken | src/main/java/org/potehin/syntax/analyzer/ExpressionResolver.java:123-126 | a bracket group with no bracket inside is read whole |
| EvaluatorExamples.FunctionNameToken | src/main/java/org/potehin/syntax/analyzer/ExpressionResolver.java:147-151 | lower-case letters before `(` are read as a function name without the `(` |
| EvaluatorExamples.EvalSum | src/test/java/org/potehin/syntax/ExpressionResolverTest.java:13 | `evaluate("10+20")` is 30 |
| EvaluatorExamples.EvalProduct | src/main/java/org/potehin/syntax/analyzer/ExpressionResolver.java:47-52 | the run `10*2`, evaluated on its own, is 20 |
| EvaluatorExamples.EvalProductSum | src/test/java/org/potehin/syntax/ExpressionResolverTest.java:14 | `evaluate("10*2+20")` is 40 |
| EvaluatorExamples.EvalInner | src/main/java/org/potehin/syntax/analyzer/ExpressionResolver.java:54-61 | the inside `2+20` of the bracket group is 22 |
| EvaluatorExamples.EvalBracketed | src/test/java/org/potehin/syntax/ExpressionResolverTest.java:15 | `evaluate("10*(2+20)-4")` is 216 |
| EvaluatorExamples.EvalSignedInner | src/main/java/org/potehin/syntax/analyzer/ExpressionResolver.java:54-61 | the inside `-2+20` of the bracket group is 18: its `-` is a sign |
| EvaluatorExamples.EvalSignedBracketed | src/test/java/org/potehin/syntax/ExpressionResolverTest.java:16 | `evaluate("10*(-2+20)-4")` is 176 |
| EvaluatorExamples.EvalWithSqrt | src/test/java/org/potehin/syntax/ExpressionResolverTest.java:17 | `evaluate("10*(-2+20)-sqrt(4)")` is 180 minus `Math.sqrt(4)` |
| EvaluatorExamples.EvalTrailingProduct | src/main/java/org/potehin/syntax/analyzer/ExpressionResolver.java:127-141 | `evaluate("20+3*4")` is 92, not 32: a run that ends the formula falls through to its first number and gets no priority |
| EvaluatorExamples.EvalDoublePlus | src/main/java/org/potehin/syntax/analyzer/ExpressionResolver.java:44-46 | `evaluate("10++20")` is 30: both `+` are pushed, one is used, and the one left on the stack is ignored at the end (lines 78-81) |
| EvaluatorExamples.EvalUnknownFunction | src/main/java/org/potehin/syntax/analyzer/ExpressionResolver.java:62-69 | `evaluate("foo(4)")` fails on the name `foo`, which is read as a function name but is not listed |

## Left out

- Floating point: values are exact rationals. `Double.parseDouble` rounding, infinities, NaN and the
  `Double` boxing are not modelled. `/` and `%` are the uninterpreted `Numerics.divide` and
  `Numerics.remainder`, so division by zero is not modelled either.
- Reflection: `Math.class.getDeclaredMethod(name, double.class)` and `invoke` are the uninterpreted
  `Numerics.call`. The failures of that lookup are not modelled. These are `pow` (no one-argument
  method), `round` (its result is not a `double`) and the checked exceptions wrapped in
  `RuntimeException`.
- The general regular-expression engine: each of the six fixed patterns is modelled by its own
  matcher and language.
- Exception types and messages: every `IllegalArgumentException` is `UnexpectedText`, and an
  `EmptyStackException` from `pop` is `EmptyStack`.
- The `default` branch of the `switch` in `evaluate` cannot be reached and has no counterpart.
- The JUnit harness of the two test classes: their expectations are stated as lemmas.
- Whitespace: the model follows the code, not the natural reading that blank padding is ignored
  and a blank-only formula gives 0. The loop is bounded by the untrimmed length, so a padded or
  blank-only formula fails (`UntrimmedFormulaFails`, `PaddedFormulaFails`).
- The `while` loop and `switch` of `evaluate` are split into `Evaluate`, `Turn`, `Consume` and
  `PushOrCompute`. This factors out the compute-or-push that the source writes three times.
- Strings: a Dafny `string` is a sequence of Unicode scalar values, while Java's `length()`,
  `substring` and offsets count UTF-16 code units. A non-ASCII character that is reached, on its
  own or inside a bracket group, makes `evaluate` fail in both. So the two counts differ only on
  formulas that fail either way.
- ParseUnsigned: its own contract states only that the value is never negative. The exact value
  is stated by the lemmas `ParseUnsignedWhole` and `ParseUnsignedScaled`, which keep the
  function's definition free of the proof they need.
- Integer width: offsets and lengths are unbounded naturals. Java's `int` never overflows for
  strings that fit in memory.
