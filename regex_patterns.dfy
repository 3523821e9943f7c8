/**
 * The six token patterns of RegexPatterns.java, each written as a
 * deterministic matcher of a prefix of a string.
 *
 * Java's `Matcher.find()` followed by the test `start() == 0` asks whether the
 * pattern matches at offset 0, and if so where the match ends.  For each of
 * these six patterns the greedy match at offset 0 is the LONGEST prefix in the
 * pattern's language: no shorter choice for a greedy part can let the rest of
 * the pattern succeed where the longer one fails.  Each matcher below is
 * therefore specified by its language (a ghost predicate on whole texts) and
 * proved to return the length of the longest prefix in that language.
 */
module RegexPatterns {
  import opened Wrappers

  // ---------------------------------------------------------------------------
  // Character classes

  /** `\d` (ASCII digits only, as Java's default). */
  predicate IsDigit(c: char) { '0' <= c <= '9' }

  /** `[a-z]` */
  predicate IsLower(c: char) { 'a' <= c <= 'z' }

  // [\*\/]
  predicate IsMulDiv(c: char) { c == '*' || c == '/' }

  // [\+\-\*\/\%]
  predicate IsOperatorChar(c: char) { c == '+' || c == '-' || IsMulDiv(c) || c == '%' }

  predicate IsParen(c: char) { c == '(' || c == ')' }

  datatype CharClass = Digits | Lowers | NonParens | NonMulDivs

  predicate InClass(cls: CharClass, c: char) {
    match cls
    case Digits => IsDigit(c)
    case Lowers => IsLower(c)
    case NonParens => !IsParen(c)
    case NonMulDivs => !IsMulDiv(c)
  }

  /** End of the longest run of characters of class `cls` starting at `i`. */
  function RunEnd(s: string, i: nat, cls: CharClass): (j: nat)
    requires i <= |s|
    ensures i <= j <= |s|
    decreases |s| - i
  {
    if i < |s| && InClass(cls, s[i]) then RunEnd(s, i + 1, cls) else i
  }

  /** The run holds only characters of the class and stops before one that is
      not in it (or at the end). */
  lemma {:induction false} RunEndStops(s: string, i: nat, cls: CharClass)
    requires i <= |s|
    ensures forall k | i <= k < RunEnd(s, i, cls) :: InClass(cls, s[k])
    ensures RunEnd(s, i, cls) == |s| || !InClass(cls, s[RunEnd(s, i, cls)])
    decreases |s| - i
  {
    if i < |s| && InClass(cls, s[i]) {
      RunEndStops(s, i + 1, cls);
    }
  }

  /** A run passes over any stretch of characters of its class. */
  lemma {:induction false} RunEndSkip(s: string, i: nat, j: nat, cls: CharClass)
    requires i <= j <= |s|
    requires forall k | i <= k < j :: InClass(cls, s[k])
    ensures RunEnd(s, i, cls) == RunEnd(s, j, cls)
    decreases j - i
  {
    if i < j {
      RunEndSkip(s, i + 1, j, cls);
    }
  }

  // ---------------------------------------------------------------------------
  // The languages of the six patterns

  /** NUMBER = `\d+(\.\d*)?`: starts with a digit, holds only digits and dots,
      and at most one dot. */
  ghost predicate IsNumberText(t: string) {
    && |t| > 0
    && IsDigit(t[0])
    && (forall i | 0 <= i < |t| :: IsDigit(t[i]) || t[i] == '.')
    && (forall i, j | 0 <= i < j < |t| && t[i] == '.' :: t[j] != '.')
  }

  /** SIGNED_NUMBER = `-?` NUMBER */
  ghost predicate IsSignedNumberText(t: string) {
    IsNumberText(t) || (|t| > 0 && t[0] == '-' && IsNumberText(t[1..]))
  }

  // OPS = [\+\-\*\/\%]: exactly one operator character.
  ghost predicate IsOperatorText(t: string) {
    |t| == 1 && IsOperatorChar(t[0])
  }

  /** SUB_FORMULA = `\([^()]*\)`: a bracket group with no bracket inside. */
  ghost predicate IsBracketGroupText(t: string) {
    && |t| >= 2
    && t[0] == '('
    && t[|t| - 1] == ')'
    && (forall i | 0 < i < |t| - 1 :: !IsParen(t[i]))
  }

  /** Index of the first `*` or `/` in `t`, or `|t|` when there is none. */
  function FirstMulDiv(t: string): (k: nat)
    ensures k <= |t|
  {
    RunEnd(t, 0, NonMulDivs)
  }

  /** FirstMulDiv is characterised by the characters before it and at it. */
  lemma FirstMulDivIs(t: string, k: nat)
    requires k <= |t|
    requires forall j | 0 <= j < k :: !IsMulDiv(t[j])
    requires k == |t| || IsMulDiv(t[k])
    ensures FirstMulDiv(t) == k
  {
    RunEndStops(t, 0, NonMulDivs);
  }

  lemma FirstMulDivStops(t: string)
    ensures forall j | 0 <= j < FirstMulDiv(t) :: !IsMulDiv(t[j])
    ensures FirstMulDiv(t) == |t| || IsMulDiv(t[FirstMulDiv(t)])
  {
    RunEndStops(t, 0, NonMulDivs);
  }

  // NUMBER ([*/] NUMBER)*: the text up to the first `*` or `/` is a
  // number, and what follows that operator is again such a chain.
  ghost predicate IsFactorChain(t: string)
    decreases |t|
  {
    var k := FirstMulDiv(t);
    IsNumberText(t[..k]) && (k == |t| || IsFactorChain(t[k + 1..]))
  }

  // HIGH_PRIORITY_EXPRESSION = NUMBER ([*/] NUMBER)+: a chain with at
  // least one `*` or `/`.
  ghost predicate IsProductText(t: string) {
    var k := FirstMulDiv(t);
    k < |t| && IsNumberText(t[..k]) && IsFactorChain(t[k + 1..])
  }

  /** FUNCTION_NAME = `[a-z]+[\(]`: lower-case letters, then `(`. */
  ghost predicate IsFunctionNameText(t: string) {
    && |t| >= 2
    && t[|t| - 1] == '('
    && (forall i | 0 <= i < |t| - 1 :: IsLower(t[i]))
  }

  // ---------------------------------------------------------------------------
  // The six pattern constants

  datatype Pattern =
    | NumberPattern                 // NUMBER
    | SignedNumberPattern           // SIGNED_NUMBER
    | OpsPattern                    // OPS
    | SubFormulaPattern             // SUB_FORMULA
    | HighPriorityExpressionPattern // HIGH_PRIORITY_EXPRESSION
    | FunctionNamePattern           // FUNCTION_NAME

  /** The language of a pattern: the whole texts it matches. */
  ghost predicate InLanguage(p: Pattern, t: string) {
    match p
    case NumberPattern => IsNumberText(t)
    case SignedNumberPattern => IsSignedNumberText(t)
    case OpsPattern => IsOperatorText(t)
    case SubFormulaPattern => IsBracketGroupText(t)
    case HighPriorityExpressionPattern => IsProductText(t)
    case FunctionNamePattern => IsFunctionNameText(t)
  }

  /** `r` is the length of the longest prefix of `s` in the language of `p`,
      or None when no prefix of `s` is in it. */
  ghost predicate IsLongestMatch(p: Pattern, s: string, r: Option<nat>) {
    && (r.Some? ==> r.value <= |s| && InLanguage(p, s[..r.value]))
    && (r.Some? ==> forall m | r.value < m <= |s| :: !InLanguage(p, s[..m]))
    && (r.None? ==> forall m | 0 <= m <= |s| :: !InLanguage(p, s[..m]))
  }

  // ---------------------------------------------------------------------------
  // Prefix matchers

  /** End of the longest NUMBER that starts at `i`. */
  function NumberEnd(s: string, i: nat): (j: nat)
    requires i < |s| && IsDigit(s[i])
    ensures i < j <= |s|
  {
    var d := RunEnd(s, i, Digits);
    if d < |s| && s[d] == '.' then RunEnd(s, d + 1, Digits) else d
  }

  /** Digits, optionally followed by a dot and more digits, form a number. */
  lemma DigitsDotDigitsIsNumber(t: string, d: nat)
    requires 0 < d <= |t|
    requires forall k | 0 <= k < d :: IsDigit(t[k])
    requires d < |t| ==> t[d] == '.' && forall k | d < k < |t| :: IsDigit(t[k])
    ensures IsNumberText(t)
  {
  }

  /** A character that is neither a digit nor a dot spoils a number. */
  lemma StrayCharNotNumber(t: string, k: nat)
    requires k < |t| && !IsDigit(t[k]) && t[k] != '.'
    ensures !IsNumberText(t)
  {
  }

  /** So does a second dot. */
  lemma SecondDotNotNumber(t: string, a: nat, b: nat)
    requires a < b < |t| && t[a] == '.' && t[b] == '.'
    ensures !IsNumberText(t)
  {
  }

  /** NumberEnd finds a number, and no longer one starts at `i`. */
  lemma NumberEndLongest(s: string, i: nat)
    requires i < |s| && IsDigit(s[i])
    ensures IsNumberText(s[i..NumberEnd(s, i)])
    ensures forall m | NumberEnd(s, i) < m <= |s| :: !IsNumberText(s[i..m])
  {
    var d := RunEnd(s, i, Digits);
    RunEndStops(s, i, Digits);
    if d < |s| && s[d] == '.' {
      var j := RunEnd(s, d + 1, Digits);
      RunEndStops(s, d + 1, Digits);
      DigitsDotDigitsIsNumber(s[i..j], d - i);
      forall m | j < m <= |s|
        ensures !IsNumberText(s[i..m])
      {
        if s[j] == '.' {
          SecondDotNotNumber(s[i..m], d - i, j - i);
        } else {
          StrayCharNotNumber(s[i..m], j - i);
        }
      }
    } else {
      DigitsDotDigitsIsNumber(s[i..d], d - i);
      forall m | d < m <= |s|
        ensures !IsNumberText(s[i..m])
      {
        StrayCharNotNumber(s[i..m], d - i);
      }
    }
  }

  /** A number followed by a character that is neither a digit nor a dot is
      the longest number there. */
  lemma NumberStopsBefore(s: string, i: nat, j: nat)
    requires i < j < |s|
    requires IsNumberText(s[i..j])
    requires !IsDigit(s[j]) && s[j] != '.'
    ensures NumberEnd(s, i) == j
  {
    assert s[i..j][0] == s[i];
    NumberEndLongest(s, i);
  }

  /** NUMBER at offset 0. */
  function MatchNumber(s: string): (r: Option<nat>)
    ensures r.Some? ==> 0 < r.value <= |s|
  {
    if |s| > 0 && IsDigit(s[0]) then Some(NumberEnd(s, 0)) else None
  }

  lemma MatchNumberLongest(s: string)
    ensures IsLongestMatch(NumberPattern, s, MatchNumber(s))
  {
    if |s| > 0 && IsDigit(s[0]) {
      NumberEndLongest(s, 0);
      assert forall m | 0 <= m <= |s| :: s[..m] == s[0..m];
    } else {
      assert forall m | 0 < m <= |s| :: s[..m][0] == s[0];
    }
  }

  /** SIGNED_NUMBER at offset 0: a `-` belongs to the match only when a digit
      follows it. */
  function MatchSignedNumber(s: string): (r: Option<nat>)
    ensures r.Some? ==> 0 < r.value <= |s|
  {
    if |s| > 0 && s[0] == '-' then
      if |s| > 1 && IsDigit(s[1]) then Some(NumberEnd(s, 1)) else None
    else
      MatchNumber(s)
  }

  lemma MatchSignedNumberLongest(s: string)
    ensures IsLongestMatch(SignedNumberPattern, s, MatchSignedNumber(s))
  {
    if |s| > 0 && s[0] == '-' {
      assert forall m | 0 < m <= |s| :: s[..m][0] == '-' && s[..m][1..] == s[1..m];
      if |s| > 1 && IsDigit(s[1]) {
        NumberEndLongest(s, 1);
      } else {
        assert forall m | 1 < m <= |s| :: s[1..m][0] == s[1];
      }
    } else {
      assert forall m | 0 < m <= |s| :: s[..m][0] == s[0];
      MatchNumberLongest(s);
    }
  }

  /** OPS at offset 0. */
  function MatchOperator(s: string): (r: Option<nat>)
    ensures r.Some? ==> 0 < r.value <= |s|
  {
    if |s| > 0 && IsOperatorChar(s[0]) then Some(1) else None
  }

  lemma MatchOperatorLongest(s: string)
    ensures IsLongestMatch(OpsPattern, s, MatchOperator(s))
  {
  }

  /** SUB_FORMULA at offset 0: a `(`, then no bracket up to a `)`. */
  function MatchBracketGroup(s: string): (r: Option<nat>)
    ensures r.Some? ==> 0 < r.value <= |s|
  {
    if |s| > 0 && s[0] == '(' then
      var e := RunEnd(s, 1, NonParens);
      if e < |s| && s[e] == ')' then Some(e + 1) else None
    else
      None
  }

  lemma MatchBracketGroupLongest(s: string)
    ensures IsLongestMatch(SubFormulaPattern, s, MatchBracketGroup(s))
  {
    if |s| > 0 && s[0] == '(' {
      var e := RunEnd(s, 1, NonParens);
      RunEndStops(s, 1, NonParens);
      assert forall m | e + 1 < m <= |s| :: s[..m][e] == s[e];
      assert forall m | 1 < m <= e :: s[..m][m - 1] == s[m - 1];
    } else {
      assert forall m | 0 < m <= |s| :: s[..m][0] == s[0];
    }
  }

  /** FUNCTION_NAME at offset 0: lower-case letters up to a `(`. */
  function MatchFunctionName(s: string): (r: Option<nat>)
    ensures r.Some? ==> 1 < r.value <= |s|
  {
    var e := RunEnd(s, 0, Lowers);
    if 0 < e < |s| && s[e] == '(' then Some(e + 1) else None
  }

  lemma MatchFunctionNameLongest(s: string)
    ensures IsLongestMatch(FunctionNamePattern, s, MatchFunctionName(s))
  {
    var e := RunEnd(s, 0, Lowers);
    RunEndStops(s, 0, Lowers);
    assert forall m | e + 1 < m <= |s| :: s[..m][e] == s[e];
    assert forall m | 1 < m <= e :: s[..m][m - 1] == s[m - 1];
  }

  // Extends a chain of factors that ends at `i` by as many `[*/]` NUMBER
  // steps as possible: the greedy `+` of HIGH_PRIORITY_EXPRESSION.
  function ChainEnd(s: string, i: nat): (j: nat)
    requires i <= |s|
    ensures i <= j <= |s|
    decreases |s| - i
  {
    if i + 1 < |s| && IsMulDiv(s[i]) && IsDigit(s[i + 1]) then ChainEnd(s, NumberEnd(s, i + 1)) else i
  }

  /** HIGH_PRIORITY_EXPRESSION at offset 0: at least two numbers joined by `*`
      or `/`, as many as follow one another. */
  function MatchProduct(s: string): (r: Option<nat>)
    ensures r.Some? ==> 0 < r.value <= |s|
  {
    if |s| > 0 && IsDigit(s[0]) then
      var n := NumberEnd(s, 0);
      var e := ChainEnd(s, n);
      if e > n then Some(e) else None
    else
      None
  }

  /** A chain of factors starts with a digit. */
  lemma FactorChainStartsWithDigit(t: string)
    requires IsFactorChain(t)
    ensures |t| > 0 && IsDigit(t[0])
  {
    var k := FirstMulDiv(t);
    assert t[..k][0] == t[0];
  }

  /** A number alone is a chain of one factor. */
  lemma NumberIsFactorChain(t: string)
    requires IsNumberText(t)
    ensures IsFactorChain(t)
  {
    assert forall k | 0 <= k < |t| :: !IsMulDiv(t[k]);
    FirstMulDivIs(t, |t|);
    assert t[..FirstMulDiv(t)] == t;
  }

  /** A chain of factors inside `s`, as a number, an operator and a chain. */
  lemma FactorChainCons(s: string, i: nat, n: nat, e: nat)
    requires i < n < e <= |s|
    requires IsMulDiv(s[n])
    requires forall k | i <= k < n :: !IsMulDiv(s[k])
    ensures IsFactorChain(s[i..e]) <==> IsNumberText(s[i..n]) && IsFactorChain(s[n + 1..e])
  {
    var t := s[i..e];
    assert t[n - i] == s[n];
    assert forall k | 0 <= k < n - i :: t[k] == s[i + k];
    FirstMulDivIs(t, n - i);
    assert t[..n - i] == s[i..n];
    assert t[n - i + 1..] == s[n + 1..e];
  }

  /** The greedy extension from a number starting at `i` is a chain of factors. */
  lemma {:induction false} ChainEndSound(s: string, i: nat)
    requires i < |s| && IsDigit(s[i])
    ensures IsFactorChain(s[i..ChainEnd(s, NumberEnd(s, i))])
    decreases |s| - i
  {
    var ne := NumberEnd(s, i);
    var e := ChainEnd(s, ne);
    NumberEndLongest(s, i);
    if e == ne {
      NumberIsFactorChain(s[i..ne]);
    } else {
      assert IsMulDiv(s[ne]) && IsDigit(s[ne + 1]);
      ChainEndSound(s, ne + 1);
      assert forall k | i <= k < ne :: s[i..ne][k - i] == s[k];
      FactorChainCons(s, i, ne, e);
    }
  }

  /** A chain of factors with an operator in it is a longest number, the
      operator, and a shorter chain. */
  lemma FactorChainStep(s: string, i: nat, m: nat)
    requires i < m <= |s|
    requires IsFactorChain(s[i..m])
    requires FirstMulDiv(s[i..m]) < m - i
    ensures IsDigit(s[i])
    ensures NumberEnd(s, i) + 1 < m && IsMulDiv(s[NumberEnd(s, i)])
    ensures IsFactorChain(s[NumberEnd(s, i) + 1..m])
  {
    var t := s[i..m];
    FactorChainStartsWithDigit(t);
    assert t[0] == s[i];
    var k := FirstMulDiv(t);
    FirstMulDivStops(t);
    assert IsMulDiv(s[i + k]) by { assert s[i + k] == t[k]; }
    assert forall j | i <= j < i + k :: !IsMulDiv(s[j]) by {
      assert forall j | i <= j < i + k :: s[j] == t[j - i];
    }
    FactorChainCons(s, i, i + k, m);
    assert IsNumberText(s[i..i + k]) && IsFactorChain(s[i + k + 1..m]);
    NumberStopsBefore(s, i, i + k);
    FactorChainStartsWithDigit(s[i + k + 1..m]);
  }

  /** No chain of factors starting at `i` ends beyond the greedy extension. */
  lemma {:induction false} ChainEndLongest(s: string, i: nat, m: nat)
    requires i < m <= |s|
    requires IsFactorChain(s[i..m])
    ensures IsDigit(s[i]) && m <= ChainEnd(s, NumberEnd(s, i))
    decreases m - i
  {
    var t := s[i..m];
    FactorChainStartsWithDigit(t);
    assert t[0] == s[i];
    if FirstMulDiv(t) < |t| {
      FactorChainStep(s, i, m);
      var ne := NumberEnd(s, i);
      assert s[ne + 1..m][0] == s[ne + 1];
      ChainEndLongest(s, ne + 1, m);
    } else {
      assert t[..FirstMulDiv(t)] == t;
      NumberEndLongest(s, i);
    }
  }

  /** A product that is a prefix of `s` ends within the greedy extension of
      the first number, which therefore has an operator after it. */
  lemma ProductPrefixWithin(s: string, m: nat)
    requires 0 < |s| && IsDigit(s[0])
    requires m <= |s| && IsProductText(s[..m])
    ensures NumberEnd(s, 0) < ChainEnd(s, NumberEnd(s, 0)) && m <= ChainEnd(s, NumberEnd(s, 0))
  {
    var n := NumberEnd(s, 0);
    var t := s[..m];
    var k := FirstMulDiv(t);
    FirstMulDivStops(t);
    assert t[..k] == s[0..k];
    assert s[k] == t[k];
    NumberStopsBefore(s, 0, k);
    assert t[k + 1..] == s[n + 1..m];
    FactorChainStartsWithDigit(s[n + 1..m]);
    assert s[n + 1..m][0] == s[n + 1];
    ChainEndLongest(s, n + 1, m);
  }

  /** The greedy extension past an operator is a product. */
  lemma ProductPrefixSound(s: string)
    requires 0 < |s| && IsDigit(s[0])
    requires NumberEnd(s, 0) < ChainEnd(s, NumberEnd(s, 0))
    ensures IsProductText(s[..ChainEnd(s, NumberEnd(s, 0))])
  {
    var n := NumberEnd(s, 0);
    var e := ChainEnd(s, n);
    NumberEndLongest(s, 0);
    ChainEndSound(s, 0);
    assert s[..e] == s[0..e];
    assert s[..e][n] == s[n] && forall k | 0 <= k < n :: s[..e][k] == s[0..n][k];
  }

  lemma MatchProductLongest(s: string)
    ensures IsLongestMatch(HighPriorityExpressionPattern, s, MatchProduct(s))
  {
    if |s| > 0 && IsDigit(s[0]) {
      forall m | 0 <= m <= |s| && IsProductText(s[..m])
        ensures NumberEnd(s, 0) < ChainEnd(s, NumberEnd(s, 0)) && m <= ChainEnd(s, NumberEnd(s, 0))
      {
        ProductPrefixWithin(s, m);
      }
      if NumberEnd(s, 0) < ChainEnd(s, NumberEnd(s, 0)) {
        ProductPrefixSound(s);
      }
    } else {
      assert forall m | 0 < m <= |s| :: s[..m][0] == s[0];
    }
  }

  // ---------------------------------------------------------------------------
  // Matching at offset 0, and `find`

  /** The end of the match of `p` that starts at offset 0 of `s`, if any. */
  function MatchAt(p: Pattern, s: string): (r: Option<nat>)
    ensures r.Some? ==> 0 < r.value <= |s|
  {
    match p
    case NumberPattern => MatchNumber(s)
    case SignedNumberPattern => MatchSignedNumber(s)
    case OpsPattern => MatchOperator(s)
    case SubFormulaPattern => MatchBracketGroup(s)
    case HighPriorityExpressionPattern => MatchProduct(s)
    case FunctionNamePattern => MatchFunctionName(s)
  }

  /** Each pattern matches at offset 0 exactly the longest prefix in its
      language; in particular it never matches the empty text. */
  lemma MatchAtLongest(p: Pattern, s: string)
    ensures IsLongestMatch(p, s, MatchAt(p, s))
  {
    match p
    case NumberPattern => MatchNumberLongest(s);
    case SignedNumberPattern => MatchSignedNumberLongest(s);
    case OpsPattern => MatchOperatorLongest(s);
    case SubFormulaPattern => MatchBracketGroupLongest(s);
    case HighPriorityExpressionPattern => MatchProductLongest(s);
    case FunctionNamePattern => MatchFunctionNameLongest(s);
  }

  /** The start and end of a match, as `Matcher.start()` and `Matcher.end()`. */
  datatype Span = Span(start: nat, end: nat)

  /** `Matcher.find()` from offset `from`: the leftmost offset where the pattern
      matches, with the end of that match. */
  function Find(p: Pattern, s: string, from: nat := 0): (r: Option<Span>)
    requires from <= |s|
    ensures r.Some? ==> from <= r.value.start < r.value.end <= |s|
    ensures r.Some? ==> MatchAt(p, s[r.value.start..]) == Some(r.value.end - r.value.start)
    ensures r.Some? ==> forall i | from <= i < r.value.start :: MatchAt(p, s[i..]).None?
    ensures r.None? ==> forall i | from <= i <= |s| :: MatchAt(p, s[i..]).None?
    decreases |s| - from
  {
    match MatchAt(p, s[from..])
    case Some(n) => Some(Span(from, from + n))
    case None => if from == |s| then None else Find(p, s, from + 1)
  }

  /** A match at `i` with no match further left is what `find()` reports. */
  lemma FindLeftmost(p: Pattern, s: string, i: nat, n: nat)
    requires i <= |s|
    requires MatchAt(p, s[i..]) == Some(n)
    requires forall j | 0 <= j < i :: MatchAt(p, s[j..]).None?
    ensures Find(p, s) == Some(Span(i, i + n))
  {
  }
}
