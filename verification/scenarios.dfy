/**
 * Clients of `TreeOutput`: event sequences such as the parser produces,
 * with the tree each one yields, proved from the class's contracts.
 */
module Scenarios {
  import opened Terms
  import opened Flattening
  import opened Rewriting
  import opened OpPrec

  const Comma := Operator(TagComma, 2, 2)

  /** `a` followed by a comma with nothing before it: the comma takes `a`
      as its right operand and then raises, leaving the stack empty. */
  method CommaWithoutLeftOperand(a: string) returns (outcome: OperOutcome, left: seq<Term>)
    ensures outcome == MissingValue && left == []
  {
    var t := new TreeOutput();
    t.Value(Val(a));
    outcome := t.Oper(Comma);
    left := t.vstack;
  }

  /**
   * `[e1, …, en]` for leaves: every leaf is pushed, n - 1 comma applications
   * fold them from the right, and a unary `:array` turns the resulting run
   * into one flat array literal.
   */
  method ArrayLiteral(es: seq<Term>) returns (r: Extracted)
    requires |es| >= 1 && forall i | 0 <= i < |es| :: es[i].Val?
    ensures r == Root(List([Sym(TagArray)] + es))
  {
    var t := new TreeOutput();
    PushAll(t, es);
    if |es| == 1 {
      ArrayOfLeaf(es[0]);
      var _ := t.Oper(Operator(TagArray, 1, 1));
    } else {
      FoldCommas(t, es);
      ArrayOfCommaRun(es);
      var _ := t.Oper(Operator(TagArray, 1, 1));
    }
    r := t.Result();
  }

  /** `value e` for every element, in order. */
  method PushAll(t: TreeOutput, es: seq<Term>)
    modifies t
    ensures t.vstack == old(t.vstack) + es
  {
    var i := 0;
    while i < |es|
      invariant 0 <= i <= |es| && t.vstack == old(t.vstack) + es[..i]
    {
      t.Value(es[i]);
      i := i + 1;
      assert es[..i] == es[..i - 1] + [es[i - 1]];
    }
    assert es[..|es|] == es;
  }

  /** n - 1 comma applications on a stack holding exactly the n leaves
      leave their comma run as the only element. */
  method FoldCommas(t: TreeOutput, es: seq<Term>)
    requires |es| >= 2 && forall i | 0 <= i < |es| :: es[i].Val?
    requires t.vstack == es
    modifies t
    ensures t.vstack == [CommaRun(es)]
  {
    var k := |es| - 2;
    CommaRunStarts(es[k], es[k + 1]);
    assert es[k..] == [es[k], es[k + 1]];
    assert t.vstack == es[..k] + [es[k], es[k + 1]];
    var _ := t.Oper(Comma);
    while k > 0
      invariant 0 <= k <= |es| - 2
      invariant t.vstack == es[..k] + [CommaRun(es[k..])]
    {
      CommaStep(t, es, k);
      k := k - 1;
    }
  }

  /** One further comma: the leaf below the run joins it in front. */
  method CommaStep(t: TreeOutput, es: seq<Term>, k: nat)
    requires 0 < k <= |es| - 2 && forall i | 0 <= i < |es| :: es[i].Val?
    requires t.vstack == es[..k] + [CommaRun(es[k..])]
    modifies t
    ensures t.vstack == es[..k - 1] + [CommaRun(es[k - 1..])]
  {
    CommaExtendsRun(es[k - 1], es[k..]);
    assert es[k - 1..] == [es[k - 1]] + es[k..];
    assert t.vstack == es[..k - 1] + [es[k - 1], CommaRun(es[k..])];
    var _ := t.Oper(Comma);
  }

  /** `obj.m()`: `:flatten` applied with no operands pushes the empty
      argument list `[:flatten, []]`, and the method call splices its one
      element, so the call node ends in an empty array. */
  method CallWithoutArguments(obj: string) returns (r: Extracted)
    ensures r == Root(List([Sym(TagCallm), Val(obj), List([])]))
  {
    var t := new TreeOutput();
    t.Value(Val(obj));
    EmptyArgumentList();
    var _ := t.Oper(Operator(TagFlatten, 0, 0));
    assert t.vstack == [Val(obj), List([Sym(TagFlatten), List([])])];
    CallOnEmptyArgumentList(TagCallm, Val(obj));
    var _ := t.Oper(Operator(TagCallm, 2, 1));
    assert t.vstack == [List([Sym(TagCallm), Val(obj), List([])])];
    r := t.Result();
  }

  /** `target[i, j]`: the array operator takes the target as its left
      operand, and the index operator, finding no left operand, splices
      that array's elements behind its own tag. */
  method IndexExpression(target: string, i: string, j: string) returns (r: Extracted)
    ensures r == Root(List([Sym(TagIndex), Val(target), Val(i), Val(j)]))
  {
    var t := new TreeOutput();
    t.Value(Val(target));
    t.Value(Val(i));
    t.Value(Val(j));
    assert t.vstack == [Val(target), Val(i), Val(j)];
    CommaRunStarts(Val(i), Val(j));
    AppliedToTwo([Val(target)], Val(i), Val(j), Comma);
    var _ := t.Oper(Comma);
    assert t.vstack == [Val(target), List([Sym(TagComma), Val(i), Val(j)])];
    ArrayWithTarget(target, i, j);
    AppliedToTwo([], Val(target), List([Sym(TagComma), Val(i), Val(j)]), Operator(TagArray, 2, 1));
    var _ := t.Oper(Operator(TagArray, 2, 1));
    assert t.vstack == [List([Sym(TagArray), Val(target), Val(i), Val(j)])];
    IndexOfArray(target, i, j);
    AppliedToOne(List([Sym(TagArray), Val(target), Val(i), Val(j)]), Operator(TagIndex, 2, 1));
    var _ := t.Oper(Operator(TagIndex, 2, 1));
    assert t.vstack == [List([Sym(TagIndex), Val(target), Val(i), Val(j)])];
    r := t.Result();
  }

  lemma IndexOfArray(target: string, i: string, j: string)
    ensures Rewrite(TagIndex, Nil, List([Sym(TagArray), Val(target), Val(i), Val(j)])) ==
            List([Sym(TagIndex), Val(target), Val(i), Val(j)])
  {
    var indices := [Val(target), Val(i), Val(j)];
    assert [Sym(TagArray)] + indices == [Sym(TagArray), Val(target), Val(i), Val(j)];
    IndexFromArrayLiteral(Nil, indices);
    assert [Sym(TagIndex)] + Present(Nil) + indices == [Sym(TagIndex), Val(target), Val(i), Val(j)];
  }

  lemma ArrayWithTarget(target: string, i: string, j: string)
    ensures Rewrite(TagArray, Val(target), List([Sym(TagComma), Val(i), Val(j)])) ==
            List([Sym(TagArray), Val(target), Val(i), Val(j)])
  {
    assert Chain([Val(i)], Val(j)) == List([Sym(TagComma), Val(i), Val(j)]);
    ArrayFromChain(Val(target), [Val(i)], Val(j));
    assert [Sym(TagArray)] + Present(Val(target)) + [Val(i)] + [Val(j)] ==
           [Sym(TagArray), Val(target), Val(i), Val(j)];
  }

  /** `a, b` applied first and `c` pushed afterwards: `:array` then finds a
      leaf on the right, so the default rule applies and the flattened pair
      stays nested as the node's first child. */
  method CommaThenArray(a: string, b: string, c: string) returns (r: Extracted)
    ensures r == Root(List([Sym(TagArray), List([Val(a), Val(b)]), Val(c)]))
  {
    var t := new TreeOutput();
    t.Value(Val(a));
    t.Value(Val(b));
    CommaRunStarts(Val(a), Val(b));
    var _ := t.Oper(Comma);
    t.Value(Val(c));
    ArrayOfPairAndLeaf(a, b, c);
    var _ := t.Oper(Operator(TagArray, 2, 1));
    r := t.Result();
  }

  lemma ArrayOfPairAndLeaf(a: string, b: string, c: string)
    ensures Rewrite(TagArray, List([Sym(TagComma), Val(a), Val(b)]), Val(c)) ==
            List([Sym(TagArray), List([Val(a), Val(b)]), Val(c)])
  {
    FlattenPair(Val(a), Val(b));
    DefaultRuleShape(TagArray, List([Sym(TagComma), Val(a), Val(b)]), Val(c));
  }

  /** `obj.m(a)`: the call extends the method-call node by its argument
      instead of wrapping it. */
  method MethodCallWithArgument(obj: string, m: string, a: string) returns (r: Extracted)
    ensures r == Root(List([Sym(TagCallm), Val(obj), Val(m), Val(a)]))
  {
    var t := new TreeOutput();
    t.Value(Val(obj));
    t.Value(Val(m));
    MethodOfLeaves(obj, m);
    var _ := t.Oper(Operator(TagCallm, 2, 2));
    assert t.vstack == [List([Sym(TagCallm), Val(obj), Val(m)])];
    t.Value(Val(a));
    CallOnMethod(obj, m, a);
    var _ := t.Oper(Operator(TagCall, 2, 1));
    assert t.vstack == [List([Sym(TagCallm), Val(obj), Val(m), Val(a)])];
    r := t.Result();
  }

  lemma MethodOfLeaves(obj: string, m: string)
    ensures Rewrite(TagCallm, Val(obj), Val(m)) == List([Sym(TagCallm), Val(obj), Val(m)])
  {
    DefaultRuleShape(TagCallm, Val(obj), Val(m));
  }

  lemma CallOnMethod(obj: string, m: string, a: string)
    ensures Rewrite(TagCall, List([Sym(TagCallm), Val(obj), Val(m)]), Val(a)) ==
            List([Sym(TagCallm), Val(obj), Val(m), Val(a)])
  {
    assert [Sym(TagCallm), Val(obj), Val(m)] + [Val(a)] == [Sym(TagCallm), Val(obj), Val(m), Val(a)];
  }

  /** Two values and no operator: `result` raises. */
  method UnderAppliedExpression(a: string, b: string) returns (r: Extracted)
    ensures r == IncompleteExpression
  {
    var t := new TreeOutput();
    t.Value(Val(a));
    t.Value(Val(b));
    r := t.Result();
  }
}
