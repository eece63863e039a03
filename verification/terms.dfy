/**
 * The values that the tree builder stores on its operand stack and
 * assembles into trees.  In the Ruby code these are untyped Ruby
 * objects; the builder only ever asks whether an object is an array and
 * whether the first element of an array is a given symbol, so a closed
 * datatype with symbols, opaque leaves, `nil` and arrays captures all of it.
 */
module Terms {

  /** A Ruby value as far as the tree builder can observe it. */
  datatype Term =
    | Nil                       // Ruby's nil (e.g. what `pop` yields on an empty array)
    | Sym(name: string)         // a Ruby symbol such as :comma
    | Val(token: string)        // an opaque leaf supplied by the parser
    | List(items: seq<Term>)    // a Ruby array; a node when its first item is a Sym

  // The symbols the rewrite rules and the flattening look for.
  const TagComma: string := "comma"
  const TagArray: string := "array"
  const TagFlatten: string := "flatten"
  const TagCall: string := "call"
  const TagCallm: string := "callm"
  const TagIndex: string := "index"

  /** `t.is_a?(Array) and t[0] == :tag` (an empty array has `nil` at index 0). */
  predicate HeadIs(t: Term, tag: string)
  {
    t.List? && |t.items| > 0 && t.items[0] == Sym(tag)
  }

  /** A right-nested comma list, `[:comma, x, y]`. */
  predicate IsCommaNode(t: Term)
  {
    HeadIs(t, TagComma)
  }

  /** A tree node: an array tagged by a symbol in its first slot. */
  predicate IsNode(t: Term)
  {
    t.List? && |t.items| > 0 && t.items[0].Sym?
  }

  /** `[x]` for a present value, `[]` for nil: one slot of Ruby's `compact`. */
  function Present(t: Term): (s: seq<Term>)
    ensures t == Nil ==> s == []
    ensures t != Nil ==> s == [t]
  {
    if t == Nil then [] else [t]
  }

  /** Ruby's `Array#compact`: the same elements, in order, without the nils. */
  function Compact(s: seq<Term>): (c: seq<Term>)
    ensures Nil !in c
    ensures forall t :: t in c <==> t in s && t != Nil
    ensures |c| <= |s|
    ensures Nil !in s ==> c == s
  {
    if s == [] then [] else Present(s[0]) + Compact(s[1..])
  }

  lemma {:induction false} CompactConcat(a: seq<Term>, b: seq<Term>)
    ensures Compact(a + b) == Compact(a) + Compact(b)
  {
    if a == [] {
      assert a + b == b;
    } else {
      assert (a + b)[1..] == a[1..] + b;
      CompactConcat(a[1..], b);
    }
  }

  /** `[tag, a, b].compact` for a present tag. */
  lemma CompactTagged(tag: Term, a: Term, b: Term)
    requires tag != Nil
    ensures Compact([tag, a]) == [tag] + Present(a)
    ensures Compact([tag, a, b]) == [tag] + Present(a) + Present(b)
  {
    assert Compact([b]) == Present(b) by {
      assert [b][1..] == [];
    }
    assert Compact([a]) == Present(a) by {
      assert [a][1..] == [];
    }
    assert Compact([a, b]) == Present(a) + Present(b) by {
      assert [a, b][1..] == [b];
    }
    assert [tag, a][1..] == [a];
    assert [tag, a, b][1..] == [a, b];
  }

  /** The number of constructors in a term; a measure for proofs about flattening. */
  function Size(t: Term): (n: nat)
    ensures n >= 1
  {
    match t
    case List(items) => 1 + SizeOf(items)
    case _ => 1
  }

  function SizeOf(s: seq<Term>): (n: nat)
    ensures n >= |s|
  {
    if s == [] then 0 else Size(s[0]) + SizeOf(s[1..])
  }

  lemma {:induction false} SizeOfConcat(a: seq<Term>, b: seq<Term>)
    ensures SizeOf(a + b) == SizeOf(a) + SizeOf(b)
  {
    if a == [] {
      assert a + b == b;
    } else {
      assert (a + b)[1..] == a[1..] + b;
      SizeOfConcat(a[1..], b);
    }
  }

  lemma SizeOfCons(x: Term, s: seq<Term>)
    ensures SizeOf([x] + s) == Size(x) + SizeOf(s)
  {
    assert ([x] + s)[1..] == s;
  }

  /** A prefix never weighs more than the whole sequence. */
  lemma SizeOfPrefix(s: seq<Term>, k: nat)
    requires k <= |s|
    ensures SizeOf(s[..k]) <= SizeOf(s)
  {
    assert s == s[..k] + s[k..];
    SizeOfConcat(s[..k], s[k..]);
  }
}
