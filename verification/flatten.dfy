/**
 * `TreeOutput#flatten`: turns a right-nested chain of `:comma` nodes into
 * one flat array of its elements.  Anything that is not a comma node is
 * returned unchanged.
 */
module Flattening {
  import opened Terms

  /** Ruby's `r[1..2]` on an array whose first slot is occupied: at most two
      elements, fewer when the array is shorter. */
  function SecondAndThird(items: seq<Term>): (s: seq<Term>)
    requires |items| >= 1
    ensures |s| == if |items| >= 3 then 2 else |items| - 1
    ensures s == items[1..][..|s|]
  {
    if |items| >= 3 then items[1..3] else items[1..]
  }

  /** The chain ends at its second child: that child is not an array, or it
      is an array literal node. */
  predicate EndsChain(t: Term)
  {
    !t.List? || HeadIs(t, TagArray)
  }

  /**
   * `flatten r` (treeoutput.rb:13-18).  A comma node whose second child ends
   * the chain gives its two children; otherwise the first child is put in
   * front of the flattened second child.  Elements after the second child
   * are dropped, as Ruby's `r[1..2]` and `r[2]` do.  An array always
   * flattens to an array, which the recursive case relies on.
   */
  function Flatten(r: Term): (f: Term)
    ensures f.List? <==> r.List?
  {
    if !r.List? then r
    else if !IsCommaNode(r) then r
    else if |r.items| < 3 || EndsChain(r.items[2]) then List(SecondAndThird(r.items))
    else List([r.items[1]] + Flatten(r.items[2]).items)
  }

  /** Flatten applied to an array, as a sequence of elements. */
  function FlattenItems(items: seq<Term>): (s: seq<Term>)
  {
    Flatten(List(items)).items
  }

  /** Only comma nodes are changed, and every comma node is changed: it
      becomes strictly smaller. */
  lemma {:induction false} FlattenShrinks(r: Term)
    ensures !IsCommaNode(r) ==> Flatten(r) == r
    ensures IsCommaNode(r) ==> Size(Flatten(r)) < Size(r)
  {
    if IsCommaNode(r) {
      var items := r.items;
      assert SizeOf(items) == Size(items[0]) + SizeOf(items[1..]);
      if |items| < 3 || EndsChain(items[2]) {
        FlattenPairShrinks(items);
      } else {
        FlattenShrinks(items[2]);
        FlattenStepShrinks(items);
      }
    }
  }

  /** The base case drops the tag and keeps at most two later elements. */
  lemma FlattenPairShrinks(items: seq<Term>)
    requires |items| >= 1
    ensures SizeOf(SecondAndThird(items)) <= SizeOf(items[1..])
  {
    SizeOfPrefix(items[1..], |SecondAndThird(items)|);
    assert SecondAndThird(items) == items[1..][..|SecondAndThird(items)|];
  }

  /** The recursive case drops the tag and everything after the second
      child, and the second child itself does not grow. */
  lemma FlattenStepShrinks(items: seq<Term>)
    requires |items| >= 3 && items[2].List?
    requires Size(Flatten(items[2])) <= Size(items[2])
    ensures 1 + SizeOf([items[1]] + Flatten(items[2]).items) <= SizeOf(items[1..])
  {
    var tail := Flatten(items[2]);
    SizeOfCons(items[1], tail.items);
    assert items[1..][1..] == items[2..];
    assert SizeOf(items[1..]) == Size(items[1]) + SizeOf(items[2..]);
    assert SizeOf(items[2..]) == Size(items[2]) + SizeOf(items[3..]) by {
      assert items[2..][1..] == items[3..];
    }
  }

  /** `flatten` leaves exactly the terms that are not comma nodes unchanged. */
  lemma FlattenFixedExactlyOffCommaNodes(r: Term)
    ensures Flatten(r) == r <==> !IsCommaNode(r)
  {
    FlattenShrinks(r);
  }

  /** A comma node whose second child ends the chain yields its two children
      with the tag dropped. */
  lemma FlattenPair(a: Term, b: Term)
    requires EndsChain(b)
    ensures Flatten(List([Sym(TagComma), a, b])) == List([a, b])
  {
  }

  /** A comma node whose second child is any other array puts its first
      child in front of that array's flattening. */
  lemma FlattenStep(a: Term, x: Term)
    requires x.List? && !EndsChain(x)
    ensures Flatten(List([Sym(TagComma), a, x])) == List([a] + Flatten(x).items)
  {
  }

  /** `[:comma, e1, [:comma, e2, … [:comma, en, last]]]`: a comma node whose
      second child is again a comma node, n levels deep. */
  function Chain(elems: seq<Term>, last: Term): (c: Term)
    ensures |elems| > 0 ==> IsCommaNode(c)
  {
    if elems == [] then last
    else List([Sym(TagComma), elems[0], Chain(elems[1..], last)])
  }

  /** The elements a chain's last link contributes: itself when it ends the
      chain, its whole item list (tag included) when it is any other array. */
  function LastLink(last: Term): (s: seq<Term>)
  {
    if EndsChain(last) then [last] else last.items
  }

  /**
   * Flattening a chain of n comma nodes yields the n first children in
   * order, followed by what the last link contributes.
   */
  lemma {:induction false} FlattenChain(elems: seq<Term>, last: Term)
    requires |elems| > 0
    requires !IsCommaNode(last)
    ensures Flatten(Chain(elems, last)) == List(elems + LastLink(last))
  {
    var rest := Chain(elems[1..], last);
    assert Chain(elems, last) == List([Sym(TagComma), elems[0], rest]);
    if |elems| == 1 {
      assert rest == last;
      if EndsChain(last) {
        FlattenPair(elems[0], last);
      } else {
        FlattenStep(elems[0], last);
      }
    } else {
      FlattenStep(elems[0], rest);
      FlattenChain(elems[1..], last);
      assert elems + LastLink(last) == [elems[0]] + (elems[1..] + LastLink(last));
    }
  }

  /** A chain that bottoms out at a leaf or an array literal flattens to
      exactly n + 1 elements, left to right. */
  lemma FlattenChainLength(elems: seq<Term>, last: Term)
    requires |elems| > 0
    requires EndsChain(last)
    ensures Flatten(Chain(elems, last)).items == elems + [last]
    ensures |Flatten(Chain(elems, last)).items| == |elems| + 1
  {
    FlattenChain(elems, last);
  }

  /**
   * The node that right-nested comma applications over the leaves `es`
   * build: `[:comma, e1, e2]` for two elements, and `[:comma, e1, [e2, …,
   * en]]` for three or more, because each further comma flattens the node
   * below it.
   */
  function CommaRun(es: seq<Term>): (c: Term)
    requires |es| >= 2
    ensures IsCommaNode(c) && |c.items| == 3 && c.items[1] == es[0]
  {
    if |es| == 2 then List([Sym(TagComma), es[0], es[1]])
    else List([Sym(TagComma), es[0], List(es[1..])])
  }

  /** Such a node flattens back to all of its elements. */
  lemma FlattenCommaRun(es: seq<Term>)
    requires |es| >= 2 && forall i | 0 <= i < |es| :: es[i].Val?
    ensures Flatten(CommaRun(es)) == List(es)
  {
    if |es| == 2 {
      FlattenPair(es[0], es[1]);
      assert [es[0], es[1]] == es;
    } else {
      var rest := List(es[1..]);
      assert rest.items[0] == es[1];
      FlattenStep(es[0], rest);
      FlattenShrinks(rest);
      assert [es[0]] + es[1..] == es;
    }
  }

  /** A second child that is some other array (not a comma or array node)
      is spliced in whole, its tag included. */
  lemma FlattenSplicesOtherArrays(a: Term, b: Term)
    requires b.List? && !EndsChain(b) && !IsCommaNode(b)
    ensures Flatten(List([Sym(TagComma), a, b])) == List([a] + b.items)
  {
  }

  /**
   * `flatten` is idempotent exactly on the inputs that are not a comma node
   * whose first child is the bare `:comma` symbol: for those, the result is
   * itself a comma node, which a second `flatten` shrinks.
   */
  lemma FlattenIdempotent(r: Term)
    ensures Flatten(Flatten(r)) == Flatten(r) <==>
            !(IsCommaNode(r) && |r.items| >= 2 && r.items[1] == Sym(TagComma))
  {
    if IsCommaNode(r) {
      var f := Flatten(r);
      assert |r.items| >= 2 ==> |f.items| > 0 && f.items[0] == r.items[1];
      FlattenShrinks(f);
    }
  }

  /** `flatten` turns only nil into nil. */
  lemma FlattenNil(t: Term)
    ensures Flatten(t) == Nil <==> t == Nil
  {
  }

  /** The exception to idempotence is real. */
  lemma FlattenNotIdempotentOnBareCommaChild(x: Term)
    requires EndsChain(x)
    ensures Flatten(List([Sym(TagComma), Sym(TagComma), x])) == List([Sym(TagComma), x])
    ensures Flatten(Flatten(List([Sym(TagComma), Sym(TagComma), x]))) == List([x])
  {
  }
}
