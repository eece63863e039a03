/**
 * `OpPrec::TreeOutput` (treeoutput.rb): the operand stack of the
 * operator-precedence parser's tree builder.  Values are pushed as leaves;
 * applying an operator pops its operands and pushes the node the rewrite
 * rules build from them; at the end the single root is extracted.
 */
module OpPrec {
  import opened Terms
  import opened Rewriting

  /** What the tree builder reads of an operator object. */
  datatype Operator = Operator(sym: string, arity: int, minarity: int)

  /** The outcome of `oper`: a node was pushed, or "Missing value in
      expression" was raised. */
  datatype OperOutcome = Pushed | MissingValue

  /** The outcome of `result`: the root (nil when nothing was pushed), or
      "Incomplete expression" was raised. */
  datatype Extracted = Root(root: Term) | IncompleteExpression

  /** How many elements `oper` pops: one for the right operand when
      `arity > 0`, one more for the left when `arity > 1`, none from an
      empty stack. */
  function Consumed(stack: seq<Term>, o: Operator): (n: nat)
    ensures n <= |stack| && n <= 2
    ensures o.arity <= 0 ==> n == 0
    ensures o.arity > 0 ==> n <= o.arity
    ensures o.arity > 0 && |stack| > 0 ==> n >= 1
    ensures o.arity > 1 && |stack| > 1 ==> n == 2
  {
    var wanted := if o.arity > 1 then 2 else if o.arity > 0 then 1 else 0;
    if |stack| < wanted then |stack| else wanted
  }

  function Min(a: int, b: int): (m: int)
  {
    if a < b then a else b
  }

  /** The right operand: the top of the stack, or nil when the operator
      takes none or the stack is empty. */
  function RightOperand(stack: seq<Term>, o: Operator): (rightv: Term)
  {
    if o.arity > 0 && |stack| > 0 then stack[|stack| - 1] else Nil
  }

  /** The left operand: the element below the top, or nil when the operator
      takes only one operand or the stack runs out; a missing left operand of
      `:flatten` is the empty argument list. */
  function LeftOperand(stack: seq<Term>, o: Operator): (leftv: Term)
  {
    var popped := if o.arity > 1 && |stack| > 1 then stack[|stack| - 2] else Nil;
    if popped == Nil && o.sym == TagFlatten then List([]) else popped
  }

  /** The stack after a successful `oper`: the consumed operands are
      replaced by the one node the rewrite rules build from them, and every
      deeper element stays as it was. */
  function Applied(stack: seq<Term>, o: Operator): (next: seq<Term>)
  {
    stack[..|stack| - Consumed(stack, o)] +
    [Rewrite(o.sym, LeftOperand(stack, o), RightOperand(stack, o))]
  }

  /** A binary operator with both operands present replaces them by their
      node. */
  lemma AppliedToTwo(below: seq<Term>, leftv: Term, rightv: Term, o: Operator)
    requires o.arity >= 2 && leftv != Nil
    ensures Applied(below + [leftv, rightv], o) == below + [Rewrite(o.sym, leftv, rightv)]
  {
    var stack := below + [leftv, rightv];
    assert stack[..|stack| - 2] == below;
  }

  /** A binary operator that tolerates a missing left operand, applied to a
      single element, takes it as its right operand and nil as its left. */
  lemma AppliedToOne(rightv: Term, o: Operator)
    requires o.arity >= 2 && o.sym != TagFlatten
    ensures Applied([rightv], o) == [Rewrite(o.sym, Nil, rightv)]
  {
  }

  /** When `oper` raises: the stack is empty and an operand is required, or
      taking the right operand empties it and a left one is required. */
  predicate MissingOperand(stack: seq<Term>, o: Operator)
  {
    (|stack| == 0 && o.minarity > 0) ||
    (|stack| == 1 && o.arity > 0 && o.minarity > 1)
  }

  class TreeOutput {
    /** `@vstack`; its last element is the top. */
    var vstack: seq<Term>

    constructor ()
      ensures vstack == []
    {
      new;
      Reset();
    }

    /** Starts a fresh expression. */
    method Reset()
      modifies this
      ensures vstack == []
    {
      vstack := [];
    }

    /** Ruby's `Array#pop`: the top element, or nil from an empty stack. */
    method Pop() returns (top: Term)
      modifies this
      ensures old(vstack) == [] ==> top == Nil && vstack == []
      ensures old(vstack) != [] ==> vstack + [top] == old(vstack)
    {
      if vstack == [] {
        top := Nil;
      } else {
        top := vstack[|vstack| - 1];
        vstack := vstack[..|vstack| - 1];
      }
    }

    /**
     * Applies operator `o`.  On success the operands it consumed are
     * replaced by the one node the rewrite rules build from them and every
     * deeper element stays as it was.  When an operand is missing it raises;
     * by then the stack is empty, and a right operand already taken stays
     * taken.
     */
    method Oper(o: Operator) returns (outcome: OperOutcome)
      modifies this
      ensures outcome == MissingValue <==> MissingOperand(old(vstack), o)
      ensures outcome == MissingValue ==> vstack == []
      ensures outcome == Pushed ==> vstack == Applied(old(vstack), o)
    {
      if vstack == [] && o.minarity > 0 {
        return MissingValue;
      }
      var rightv := Nil;
      if o.arity > 0 {
        rightv := Pop();
      }
      if vstack == [] && o.minarity > 1 {
        return MissingValue;
      }
      var leftv := Nil;
      if o.arity > 1 {
        leftv := Pop();
      }
      if leftv == Nil && o.sym == TagFlatten {
        leftv := List([]);  // an empty argument list
      }
      vstack := vstack + [Rewrite(o.sym, leftv, rightv)];
      outcome := Pushed;
    }

    /** Pushes a leaf (or any ready-made term). */
    method Value(v: Term)
      modifies this
      ensures vstack == old(vstack) + [v]
    {
      vstack := vstack + [v];
    }

    /** The finished tree: the bottom element, nil from an empty stack, and
        an error when more than one element is left.  The stack is only
        read. */
    method Result() returns (r: Extracted)
      ensures r == IncompleteExpression <==> |vstack| > 1
      ensures r.Root? ==> r.root == if vstack == [] then Nil else vstack[0]
    {
      if |vstack| > 1 {
        return IncompleteExpression;
      }
      r := Root(if vstack == [] then Nil else vstack[0]);
    }
  }

  /**
   * For an operator whose `minarity` does not exceed its `arity`, a
   * successful application took at least `minarity` (at most two) operands
   * that were really on the stack, so none of the required ones is a nil
   * standing in for a missing element.
   */
  lemma RequiredOperandsPresent(stack: seq<Term>, o: Operator)
    requires o.minarity <= o.arity
    requires !MissingOperand(stack, o)
    ensures Consumed(stack, o) >= Min(o.minarity, 2)
    ensures o.minarity > 0 ==> RightOperand(stack, o) == stack[|stack| - 1]
    ensures o.minarity > 1 ==> |stack| >= 2
  {
  }
}
