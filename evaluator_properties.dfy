/**
 * What `compute` and `evaluate` of ExpressionResolver.java promise, stated
 * over `Reduce`, `Step`, `Trim` and `Eval`.
 */
module EvaluatorProperties {
  import opened Wrappers
  import opened Numbers
  import opened ExpressionResolver
  import opened ResolverProperties

  // ---------------------------------------------------------------------------
  // compute

  /**
   * A binary operator on top: `compute` pops it and the top value and pushes
   * one value, `top op next`, so the value stack keeps its size and nothing
   * further is reduced; with no value to pop it fails.
   */
  lemma ReduceBinary(num: Numerics, ops: seq<string>, values: seq<real>, next: real)
    requires ops != [] && IsBinaryOperator(ops[|ops| - 1])
    ensures values == [] ==> Reduce(num, ops, values, next) == Err(EmptyStack)
    ensures values != [] ==>
      var r := Reduce(num, ops, values, next);
      && r.Ok?
      && r.value.ops == ops[..|ops| - 1]
      && |r.value.values| == |values|
      && r.value.values[..|values| - 1] == values[..|values| - 1]
      && r.value.values[|values| - 1] == ApplyBinary(num, ops[|ops| - 1], values[|values| - 1], next)
  {
  }

  /** `compute` on an empty operator stack fails. */
  lemma ReduceNoOperator(num: Numerics, values: seq<real>, next: real)
    ensures Reduce(num, [], values, next) == Err(EmptyStack)
  {
  }

  /** Every name is a listed function. */
  predicate AllListed(names: seq<string>) {
    forall i | 0 <= i < |names| :: names[i] in ValidFunctionNames
  }

  /** The functions named in `names` applied to `x`, the last (topmost) name
      first. */
  function ApplyAll(num: Numerics, names: seq<string>, x: real): real
    decreases |names|
  {
    if names == [] then x else ApplyAll(num, names[..|names| - 1], num.call(names[|names| - 1], x))
  }

  /**
   * Functions on top of the operator stack are applied one after the other,
   * innermost first, while operators remain: the result is reduced against
   * what lies below them, or pushed when nothing does.
   */
  lemma {:induction false} ReduceChain(num: Numerics, below: seq<string>, names: seq<string>, values: seq<real>, x: real)
    requires AllListed(names)
    requires below == [] ==> names != []
    ensures Reduce(num, below + names, values, x)
            == if below == [] then Ok(State([], values + [ApplyAll(num, names, x)]))
               else Reduce(num, below, values, ApplyAll(num, names, x))
    decreases |names|
  {
    if names == [] {
      assert below + names == below;
    } else {
      var n := |names|;
      var ops := below + names;
      assert ops[|ops| - 1] == names[n - 1];
      assert ops[..|ops| - 1] == below + names[..n - 1];
      assert !IsBinaryOperator(names[n - 1]);
      var value := num.call(names[n - 1], x);
      if below + names[..n - 1] != [] {
        ReduceChain(num, below, names[..n - 1], values, value);
      } else {
        assert names[..n - 1] == [];
      }
    }
  }

  // ---------------------------------------------------------------------------
  // The switch of evaluate

  /** Only operators and listed functions reach the operator stack. */
  lemma StepKeepsOpsWellFormed(num: Numerics, formula: string, element: ExpressionElement, st: State)
    requires ElementWithin(element, |formula|) && OpsWellFormed(st.ops)
    requires Step(num, formula, element, st).Ok?
    ensures OpsWellFormed(Step(num, formula, element, st).value.ops)
  {
    var after := Step(num, formula, element, st).value;
    if !IsPushed(element.elementType) && st.ops != [] {
      assert forall i | 0 <= i < |after.ops| :: after.ops[i] == st.ops[i];
    }
  }

  // ---------------------------------------------------------------------------
  // String.trim

  /** A text is its own trim exactly when it is empty or starts and ends with
      a character above U+0020. */
  lemma TrimIdentity(s: string)
    ensures Trim(s) == s <==> s == [] || (s[0] > ' ' && s[|s| - 1] > ' ')
  {
    if s != [] && Trim(s) == s {
      var st := TrimStart(s, 0);
      var e := TrimEnd(s, st, |s|);
      assert |s[st..e]| == |s|;
      assert st == 0 && e == |s|;
    }
  }

  /** The first index above U+0020 at or after `i`, and nothing above it
      before. */
  lemma {:induction false} TrimStartStops(s: string, i: nat)
    requires i <= |s|
    ensures TrimStart(s, i) == |s| || s[TrimStart(s, i)] > ' '
    ensures forall k | i <= k < TrimStart(s, i) :: s[k] <= ' '
    decreases |s| - i
  {
    if i < |s| && s[i] <= ' ' {
      TrimStartStops(s, i + 1);
    }
  }

  /** Every character dropped from the end is at most U+0020, and the last
      character kept is above it unless nothing is kept. */
  lemma {:induction false} TrimEndStops(s: string, st: nat, len: nat)
    requires st <= len <= |s|
    ensures TrimEnd(s, st, len) == st || s[TrimEnd(s, st, len) - 1] > ' '
    ensures forall k | TrimEnd(s, st, len) <= k < len :: s[k] <= ' '
    decreases len
  {
    if st < len && s[len - 1] <= ' ' {
      TrimEndStops(s, st, len - 1);
    }
  }

  /** Trimming twice is trimming once. */
  lemma TrimIdempotent(s: string)
    ensures Trim(Trim(s)) == Trim(s)
  {
    var st := TrimStart(s, 0);
    var e := TrimEnd(s, st, |s|);
    TrimStartStops(s, 0);
    TrimEndStops(s, st, |s|);
    if st < e {
      assert Trim(s)[0] == s[st] && Trim(s)[|Trim(s)| - 1] == s[e - 1];
    }
    TrimIdentity(Trim(s));
  }

  /** A trim that changes the text makes it shorter. */
  lemma TrimShortens(s: string)
    requires Trim(s) != s
    ensures |Trim(s)| < |s|
  {
  }

  // ---------------------------------------------------------------------------
  // The result of evaluate

  /** `evaluate("")` is 0. */
  lemma EvalEmpty(num: Numerics)
    ensures Eval(num, []) == Ok(0.0)
  {
  }

  /**
   * When the trimmed text is shorter than the formula the loop cannot stop
   * by its bound: it reads on until the trimmed text is used up, and then
   * nothing matches.
   */
  lemma {:induction false} LoopFailsWhenShorter(num: Numerics, formula: string, trimmed: string, offset: nat, st: State)
    requires |trimmed| < |formula| && offset <= |trimmed|
    ensures Loop(num, formula, trimmed, offset, st).Err?
    decreases |trimmed| - offset
  {
    var found := NextElement(trimmed[offset..], offset == 0);
    NextElementFits(formula, trimmed, offset);
    if found.Err? {
      LoopStops(num, formula, trimmed, offset, st);
    } else {
      if offset == |trimmed| {
        NothingInEmptyText(offset == 0);
        assert false;
      }
      var element := found.value;
      var next := offset + |element.text|;
      var step := Step(num, formula, element, st);
      if step.Err? {
        LoopSteps(num, formula, trimmed, offset, st, element, Some(step.error), st, next);
      } else {
        LoopSteps(num, formula, trimmed, offset, st, element, None, step.value, next);
        LoopFailsWhenShorter(num, formula, trimmed, next, step.value);
      }
    }
  }

  /**
   * A formula that differs from its trim always fails: the loop is bounded
   * by the length of the formula but reads the shorter trimmed text.
   */
  lemma UntrimmedFormulaFails(num: Numerics, formula: string)
    requires Trim(formula) != formula
    ensures Eval(num, formula).Err?
  {
    TrimShortens(formula);
    LoopFailsWhenShorter(num, formula, Trim(formula), 0, State([], []));
  }

  /** In particular any formula that starts or ends with a blank fails. */
  lemma PaddedFormulaFails(num: Numerics, formula: string)
    requires formula != [] && (formula[0] <= ' ' || formula[|formula| - 1] <= ' ')
    ensures Trim(formula) != formula
    ensures Eval(num, formula).Err?
  {
    TrimIdentity(formula);
    UntrimmedFormulaFails(num, formula);
  }
}
