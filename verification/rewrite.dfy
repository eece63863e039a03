/**
 * The rewrite rules of `TreeOutput#oper` (treeoutput.rb:31-44): given the
 * operator symbol and the two operands already taken off the stack, the
 * node that is pushed in their place.  The rules are tried in order and the
 * first that matches wins; the last one is the plain binary/unary node.
 */
module Rewriting {
  import opened Terms
  import opened Flattening

  datatype Rule =
    | Splice          // R1: right operand is a `:flatten` argument list
    | ChainedCall     // R2: `:callm` applied to a `:call` node
    | MethodCallFold  // R3: `:call` applied to a `:callm` node
    | IndexList       // R4: `:index` applied to an `:array` node
    | ArrayFromComma  // R5: `:array` applied to a comma chain
    | Default         // R6: everything else

  /** R1's guard. */
  predicate SpliceGuard(rightv: Term)
  {
    HeadIs(rightv, TagFlatten)
  }

  /** R2's guard. */
  predicate ChainedCallGuard(sym: string, rightv: Term)
  {
    HeadIs(rightv, TagCall) && sym == TagCallm
  }

  /** R3's guard. */
  predicate MethodCallFoldGuard(sym: string, leftv: Term)
  {
    HeadIs(leftv, TagCallm) && sym == TagCall
  }

  /** R4's guard. */
  predicate IndexListGuard(sym: string, rightv: Term)
  {
    HeadIs(rightv, TagArray) && sym == TagIndex
  }

  /** R5's guard. */
  predicate ArrayFromCommaGuard(sym: string, rightv: Term)
  {
    HeadIs(rightv, TagComma) && sym == TagArray
  }

  /** The first rule whose guard holds (treeoutput.rb:32, 34, 36, 38, 40):
      each rule is chosen exactly when its own guard holds and no earlier
      one does, and the default exactly when none holds. */
  function SelectRule(sym: string, leftv: Term, rightv: Term): (rule: Rule)
    ensures rule == Splice <==> SpliceGuard(rightv)
    ensures rule == ChainedCall <==> !SpliceGuard(rightv) && ChainedCallGuard(sym, rightv)
    ensures rule == MethodCallFold <==>
      !SpliceGuard(rightv) && !ChainedCallGuard(sym, rightv) && MethodCallFoldGuard(sym, leftv)
    ensures rule == IndexList <==>
      !SpliceGuard(rightv) && !ChainedCallGuard(sym, rightv) && !MethodCallFoldGuard(sym, leftv) &&
      IndexListGuard(sym, rightv)
    ensures rule == ArrayFromComma <==>
      !SpliceGuard(rightv) && !ChainedCallGuard(sym, rightv) && !MethodCallFoldGuard(sym, leftv) &&
      !IndexListGuard(sym, rightv) && ArrayFromCommaGuard(sym, rightv)
    ensures rule == Default <==>
      !SpliceGuard(rightv) && !ChainedCallGuard(sym, rightv) && !MethodCallFoldGuard(sym, leftv) &&
      !IndexListGuard(sym, rightv) && !ArrayFromCommaGuard(sym, rightv)
  {
    if SpliceGuard(rightv) then Splice
    else if ChainedCallGuard(sym, rightv) then ChainedCall
    else if MethodCallFoldGuard(sym, leftv) then MethodCallFold
    else if IndexListGuard(sym, rightv) then IndexList
    else if ArrayFromCommaGuard(sym, rightv) then ArrayFromComma
    else Default
  }

  /** `t[1..-1]` on a non-empty array: the elements after its tag. */
  function Untagged(t: Term): (s: seq<Term>)
    requires t.List? && |t.items| > 0
    ensures |s| == |t.items| - 1
  {
    t.items[1..]
  }

  /**
   * The node pushed for operator `sym` applied to `leftv` and `rightv`
   * (treeoutput.rb:32-44).  Whatever the rule, it is a node: an array whose
   * first slot holds a symbol.
   */
  function Rewrite(sym: string, leftv: Term, rightv: Term): (node: Term)
    ensures IsNode(node)
  {
    match SelectRule(sym, leftv, rightv)
    case Splice => SpliceNode(sym, leftv, rightv)
    case ChainedCall => SpliceNode(sym, leftv, rightv)
    case MethodCallFold => FoldNode(leftv, rightv)
    case IndexList => CompactSpliceNode(sym, leftv, FlattenItems(Untagged(rightv)))
    case ArrayFromComma => CompactSpliceNode(sym, leftv, Flatten(rightv).items)
    case Default => DefaultNode(sym, leftv, rightv)
  }

  /** R1, R2: `[o.sym, leftv] + flatten(rightv[1..-1])`. */
  function SpliceNode(sym: string, leftv: Term, rightv: Term): (node: Term)
    requires rightv.List? && |rightv.items| > 0
  {
    List([Sym(sym), leftv] + FlattenItems(Untagged(rightv)))
  }

  /** R3: `leftv + [flatten(rightv)]`. */
  function FoldNode(leftv: Term, rightv: Term): (node: Term)
    requires leftv.List?
  {
    List(leftv.items + [Flatten(rightv)])
  }

  /** R4, R5: `[o.sym, leftv].compact + spliced`. */
  function CompactSpliceNode(sym: string, leftv: Term, spliced: seq<Term>): (node: Term)
  {
    List(Compact([Sym(sym), leftv]) + spliced)
  }

  /** R6: `[o.sym, flatten(leftv), flatten(rightv)].compact`. */
  function DefaultNode(sym: string, leftv: Term, rightv: Term): (node: Term)
  {
    List(Compact([Sym(sym), Flatten(leftv), Flatten(rightv)]))
  }

  /** The pushed node carries the operator's own tag, except under R3,
      where the existing `:callm` node is extended instead. */
  lemma RewriteTag(sym: string, leftv: Term, rightv: Term)
    ensures Rewrite(sym, leftv, rightv).items[0] ==
            Sym(if SelectRule(sym, leftv, rightv) == MethodCallFold then TagCallm else sym)
  {
  }

  /** R1 is tried first: an argument list on the right is spliced whatever
      the operator, even `:callm`, `:index` or `:array`. */
  lemma SpliceTakesPrecedence(sym: string, leftv: Term, rightv: Term)
    requires HeadIs(rightv, TagFlatten)
    ensures SelectRule(sym, leftv, rightv) == Splice
    ensures Rewrite(sym, leftv, rightv).items[0] == Sym(sym)
  {
  }

  /** R1 and R2 do not `compact`: the left slot is kept even when it is nil. */
  lemma SplicingRulesKeepLeftSlot(sym: string, leftv: Term, rightv: Term)
    requires SelectRule(sym, leftv, rightv) in {Splice, ChainedCall}
    ensures var node := Rewrite(sym, leftv, rightv);
      |node.items| == 2 + |FlattenItems(Untagged(rightv))| &&
      node.items[..2] == [Sym(sym), leftv] &&
      node.items[2..] == FlattenItems(Untagged(rightv))
  {
  }

  /** R4 and R5 `compact` the tag and the left operand: a nil left operand
      leaves no slot, a present one sits right after the tag, and the
      spliced elements follow. */
  lemma CompactingRulesDropMissingLeft(sym: string, leftv: Term, rightv: Term)
    requires SelectRule(sym, leftv, rightv) in {IndexList, ArrayFromComma}
    ensures var node := Rewrite(sym, leftv, rightv);
      node.items == [Sym(sym)] + Present(leftv) +
        (if SelectRule(sym, leftv, rightv) == IndexList then FlattenItems(Untagged(rightv))
         else Flatten(rightv).items)
    ensures leftv != Nil ==> Rewrite(sym, leftv, rightv).items[1] == leftv
  {
    CompactTagged(Sym(sym), leftv, Nil);
  }

  /** R3 extends the existing `:callm` node by one trailing element, the
      flattened right operand, instead of nesting it. */
  lemma MethodCallFoldExtends(sym: string, leftv: Term, rightv: Term)
    requires SelectRule(sym, leftv, rightv) == MethodCallFold
    ensures var node := Rewrite(sym, leftv, rightv);
      |node.items| == |leftv.items| + 1 &&
      node.items[..|leftv.items|] == leftv.items &&
      node.items[|leftv.items|] == Flatten(rightv)
  {
  }

  /**
   * R6, the default: the operator's symbol followed by the flattened left
   * and right operands, each only when present, so the node has one slot
   * more than there are operands and never holds nil.
   */
  lemma DefaultRuleShape(sym: string, leftv: Term, rightv: Term)
    requires SelectRule(sym, leftv, rightv) == Default
    ensures var node := Rewrite(sym, leftv, rightv);
      node.items == [Sym(sym)] + Present(Flatten(leftv)) + Present(Flatten(rightv)) &&
      |node.items| == 1 + |Present(leftv)| + |Present(rightv)| &&
      Nil !in node.items
  {
    assert Rewrite(sym, leftv, rightv) == DefaultNode(sym, leftv, rightv);
    FlattenNil(leftv);
    FlattenNil(rightv);
    CompactTagged(Sym(sym), Flatten(leftv), Flatten(rightv));
  }

  /**
   * `:array` applied to any right-nested comma chain yields one array node:
   * the left operand, if any, then the chain's first children in order, then
   * what its last link contributes (R5).
   */
  lemma ArrayFromChain(leftv: Term, elems: seq<Term>, last: Term)
    requires |elems| > 0
    requires !IsCommaNode(last)
    ensures Rewrite(TagArray, leftv, Chain(elems, last)) ==
            List([Sym(TagArray)] + Present(leftv) + elems + LastLink(last))
  {
    ArrayOnCommaNode(leftv, Chain(elems, last));
    FlattenChain(elems, last);
  }

  /** R5 on any comma node: the tag, the left operand if present, then the
      flattened comma node. */
  lemma ArrayOnCommaNode(leftv: Term, rightv: Term)
    requires IsCommaNode(rightv)
    ensures Rewrite(TagArray, leftv, rightv) ==
            List([Sym(TagArray)] + Present(leftv) + Flatten(rightv).items)
  {
    assert SelectRule(TagArray, leftv, rightv) == ArrayFromComma;
    CompactTagged(Sym(TagArray), leftv, Nil);
  }

  /** The first comma: two leaves make a plain comma node (R6). */
  lemma CommaRunStarts(a: Term, b: Term)
    requires a.Val? && b.Val?
    ensures Rewrite(TagComma, a, b) == CommaRun([a, b])
  {
    DefaultRuleShape(TagComma, a, b);
    FlattenShrinks(a);
    FlattenShrinks(b);
  }

  /** Every further comma extends the run by one element in front (R6). */
  lemma CommaExtendsRun(e: Term, es: seq<Term>)
    requires e.Val?
    requires |es| >= 2 && forall i | 0 <= i < |es| :: es[i].Val?
    ensures Rewrite(TagComma, e, CommaRun(es)) == CommaRun([e] + es)
  {
    DefaultRuleShape(TagComma, e, CommaRun(es));
    FlattenShrinks(e);
    FlattenCommaRun(es);
    assert ([e] + es)[1..] == es;
  }

  /** `:array` applied to the run, with no left operand, gives the flat
      array literal `[:array, e1, …, en]` (R5). */
  lemma ArrayOfCommaRun(es: seq<Term>)
    requires |es| >= 2 && forall i | 0 <= i < |es| :: es[i].Val?
    ensures Rewrite(TagArray, Nil, CommaRun(es)) == List([Sym(TagArray)] + es)
  {
    ArrayOnCommaNode(Nil, CommaRun(es));
    FlattenCommaRun(es);
  }

  /**
   * A call as the last element of an array literal loses its nesting:
   * `[a, b, f(x)]` becomes `[:array, a, b, :call, f, x]`, because `flatten`
   * splices a last link that is an array other than an `:array` node.
   */
  lemma ArrayLiteralSplicesLastCall(a: Term, b: Term, f: Term, x: Term)
    requires a.Val? && b.Val? && f.Val? && x.Val?
    ensures var call := List([Sym(TagCall), f, x]);
            Rewrite(TagArray, Nil, Rewrite(TagComma, a, Rewrite(TagComma, b, call))) ==
            List([Sym(TagArray), a, b, Sym(TagCall), f, x])
  {
    var call := List([Sym(TagCall), f, x]);
    CommaBeforeCall(b, call);
    var spliced := List([b, Sym(TagCall), f, x]);
    CommaBeforeSplicedCall(a, b, call, spliced);
    ArrayFromChain(Nil, [a], spliced);
    assert Chain([a], spliced) == List([Sym(TagComma), a, spliced]);
  }

  /** The first comma keeps the call node whole as its second child. */
  lemma CommaBeforeCall(b: Term, call: Term)
    requires b.Val? && HeadIs(call, TagCall)
    ensures Rewrite(TagComma, b, call) == List([Sym(TagComma), b, call])
  {
    DefaultRuleShape(TagComma, b, call);
    FlattenShrinks(b);
    FlattenShrinks(call);
  }

  /** The second comma flattens the first, which splices the call node. */
  lemma CommaBeforeSplicedCall(a: Term, b: Term, call: Term, spliced: Term)
    requires a.Val? && b.Val? && HeadIs(call, TagCall)
    requires spliced == List([b] + call.items)
    ensures Rewrite(TagComma, a, List([Sym(TagComma), b, call])) ==
            List([Sym(TagComma), a, spliced])
  {
    var inner := List([Sym(TagComma), b, call]);
    FlattenSplicesOtherArrays(b, call);
    DefaultRuleShape(TagComma, a, inner);
    FlattenShrinks(a);
  }

  /** `:array` applied to a single leaf, with no left operand, gives the
      one-element literal `[:array, e]` (R6). */
  lemma ArrayOfLeaf(e: Term)
    requires e.Val?
    ensures Rewrite(TagArray, Nil, e) == List([Sym(TagArray), e])
  {
    DefaultRuleShape(TagArray, Nil, e);
    FlattenShrinks(e);
  }

  /**
   * `target[i1, …, in]`: `:index` applied to an array literal whose elements
   * do not start with the bare `:comma` symbol yields one flat index node
   * (R4).
   */
  lemma IndexFromArrayLiteral(target: Term, indices: seq<Term>)
    requires indices == [] || indices[0] != Sym(TagComma)
    ensures Rewrite(TagIndex, target, List([Sym(TagArray)] + indices)) ==
            List([Sym(TagIndex)] + Present(target) + indices)
  {
    var rightv := List([Sym(TagArray)] + indices);
    assert HeadIs(rightv, TagArray) && !HeadIs(rightv, TagFlatten);
    assert Untagged(rightv) == indices;
    CompactTagged(Sym(TagIndex), target, Nil);
  }

  /**
   * A call on an explicit argument list `[:flatten, a1, …, an]`: the
   * arguments are spliced after the callee (R1).
   */
  lemma CallSplicesArguments(sym: string, callee: Term, args: seq<Term>)
    requires args == [] || args[0] != Sym(TagComma)
    ensures Rewrite(sym, callee, List([Sym(TagFlatten)] + args)) ==
            List([Sym(sym), callee] + args)
  {
    var rightv := List([Sym(TagFlatten)] + args);
    assert HeadIs(rightv, TagFlatten);
    assert Untagged(rightv) == args;
  }

  /**
   * The empty argument list: `:flatten` applied with no operands gets `[]`
   * as its left operand (treeoutput.rb:26), and R6 keeps it, because `[]`
   * is not nil.
   */
  lemma EmptyArgumentList()
    ensures Rewrite(TagFlatten, List([]), Nil) == List([Sym(TagFlatten), List([])])
  {
    DefaultRuleShape(TagFlatten, List([]), Nil);
    assert !IsCommaNode(List([]));
    FlattenShrinks(List([]));
  }

  /** A call on the empty argument list gets one `[]` argument, not none:
      R1 splices the list's single element, the empty array. */
  lemma CallOnEmptyArgumentList(sym: string, callee: Term)
    ensures Rewrite(sym, callee, List([Sym(TagFlatten), List([])])) ==
            List([Sym(sym), callee, List([])])
  {
    var rightv := List([Sym(TagFlatten), List([])]);
    assert SelectRule(sym, callee, rightv) == Splice;
    assert Untagged(rightv) == [List([])];
    FlattenShrinks(List([List([])]));
  }

  /**
   * `obj.m` followed by a call node: the `:callm` operator merges the call's
   * elements into its own node instead of nesting the call (R2), unless the
   * call node's elements start with the bare `:comma` symbol.
   */
  lemma ChainedCallMerges(target: Term, call: seq<Term>)
    requires call == [] || call[0] != Sym(TagComma)
    ensures Rewrite(TagCallm, target, List([Sym(TagCall)] + call)) ==
            List([Sym(TagCallm), target] + call)
  {
    var rightv := List([Sym(TagCall)] + call);
    assert HeadIs(rightv, TagCall) && !HeadIs(rightv, TagFlatten);
    assert Untagged(rightv) == call;
  }
}
