/**
 * The tree builder driven by a whole sequence of parser events, as a pure
 * function over the stack's contents.  Each step is exactly what
 * `TreeOutput.Value` and `TreeOutput.Oper` do to `vstack`.
 */
module Events {
  import opened Terms
  import opened Rewriting
  import opened OpPrec

  /** One call the parser makes: `value v` or `oper o`. */
  datatype Event = Push(v: Term) | Apply(o: Operator)

  datatype Run = Ok(stack: seq<Term>) | Raised

  /** The stack after one event, or `Raised` when `oper` raises. */
  function Step(stack: seq<Term>, e: Event): (r: Run)
    ensures e.Push? ==> r == Ok(stack + [e.v])
    ensures e.Apply? ==> (r.Raised? <==> MissingOperand(stack, e.o))
    ensures r.Ok? && e.Apply? ==> r.stack == Applied(stack, e.o)
  {
    match e
    case Push(v) => Ok(stack + [v])
    case Apply(o) =>
      if MissingOperand(stack, o) then Raised
      else Ok(Applied(stack, o))
  }

  /** The events applied in order; the first exception ends the run. */
  function RunAll(stack: seq<Term>, events: seq<Event>): (r: Run)
    decreases |events|
  {
    if events == [] then Ok(stack)
    else match Step(stack, events[0])
      case Raised => Raised
      case Ok(next) => RunAll(next, events[1..])
  }

  /** An operator of a postfix expression: it takes at most two operands and
      requires no more than it takes. */
  predicate Regular(o: Operator)
  {
    0 <= o.arity <= 2 && o.minarity <= o.arity
  }

  /** The events form a postfix expression over a stack of height `h`: every
      operator is regular and finds at least the operands it requires; one
      that tolerates a missing operand takes what is there. */
  predicate Postfix(h: nat, events: seq<Event>)
    decreases |events|
  {
    events == [] ||
    match events[0]
    case Push(_) => Postfix(h + 1, events[1..])
    case Apply(o) => Regular(o) && h >= o.minarity && Postfix(h - Min(h, o.arity) + 1, events[1..])
  }

  /** The stack height a postfix expression leaves behind. */
  function Height(h: nat, events: seq<Event>): (height: nat)
    requires Postfix(h, events)
    decreases |events|
  {
    if events == [] then h
    else match events[0]
      case Push(_) => Height(h + 1, events[1..])
      case Apply(o) => Height(h - Min(h, o.arity) + 1, events[1..])
  }

  /** A postfix expression never raises, and it leaves exactly the height
      its events count. */
  lemma {:induction false} PostfixRuns(stack: seq<Term>, events: seq<Event>)
    requires Postfix(|stack|, events)
    ensures RunAll(stack, events).Ok?
    ensures |RunAll(stack, events).stack| == Height(|stack|, events)
    decreases |events|
  {
    if events != [] {
      var e := events[0];
      match e
      case Push(v) =>
        PostfixRuns(stack + [v], events[1..]);
      case Apply(o) =>
        assert !MissingOperand(stack, o);
        var next := Step(stack, e).stack;
        assert |next| == |stack| - Min(|stack|, o.arity) + 1;
        PostfixRuns(next, events[1..]);
    }
  }

  /**
   * A complete expression, one whose events leave a single element on an
   * initially empty stack, is assembled without an error into exactly one
   * element.
   */
  lemma CompleteExpressionHasOneRoot(events: seq<Event>)
    requires Postfix(0, events) && Height(0, events) == 1
    ensures RunAll([], events).Ok? && |RunAll([], events).stack| == 1
  {
    PostfixRuns([], events);
  }

  /** Operators that tolerate missing operands still form complete
      expressions: `target[i, j]`, whose `:index` finds only the array, and
      `obj.m()`, whose `:flatten` takes no operand at all. */
  lemma TolerantOperatorsComplete(target: Term, i: Term, j: Term, obj: Term)
    ensures var index := [Push(target), Push(i), Push(j), Apply(Operator(TagComma, 2, 2)),
                          Apply(Operator(TagArray, 2, 1)), Apply(Operator(TagIndex, 2, 1))];
            Postfix(0, index) && Height(0, index) == 1
    ensures var call := [Push(obj), Apply(Operator(TagFlatten, 0, 0)), Apply(Operator(TagCallm, 2, 1))];
            Postfix(0, call) && Height(0, call) == 1
  {
    var index := [Push(target), Push(i), Push(j), Apply(Operator(TagComma, 2, 2)),
                  Apply(Operator(TagArray, 2, 1)), Apply(Operator(TagIndex, 2, 1))];
    forall k | 0 <= k < |index|
      ensures index[k..][1..] == index[k + 1..]
    {
    }
    assert index[6..] == [];
    assert index[5..][1..] == [];
    assert Postfix(1, index[5..]) && Height(1, index[5..]) == Height(1, []);
    assert Postfix(2, index[4..]) && Height(2, index[4..]) == 1;
    assert Postfix(3, index[3..]) && Height(3, index[3..]) == 1;
    assert Postfix(2, index[2..]) && Height(2, index[2..]) == 1;
    assert Postfix(1, index[1..]) && Height(1, index[1..]) == 1;
    assert index[0..] == index;
    var call := [Push(obj), Apply(Operator(TagFlatten, 0, 0)), Apply(Operator(TagCallm, 2, 1))];
    forall k | 0 <= k < |call|
      ensures call[k..][1..] == call[k + 1..]
    {
    }
    assert call[3..] == [];
    assert Postfix(2, call[2..]) && Height(2, call[2..]) == 1;
    assert Postfix(1, call[1..]) && Height(1, call[1..]) == 1;
    assert call[0..] == call;
  }

  /** One event fed to a builder: it changes the stack exactly as `Step`
      says, or raises exactly when `Step` does. */
  method Feed(t: TreeOutput, e: Event) returns (raised: bool)
    modifies t
    ensures raised <==> Step(old(t.vstack), e).Raised?
    ensures !raised ==> t.vstack == Step(old(t.vstack), e).stack
  {
    raised := false;
    match e {
      case Push(v) =>
        t.Value(v);
      case Apply(o) =>
        var outcome := t.Oper(o);
        raised := outcome == MissingValue;
    }
  }

  /**
   * Feeds `events` to a builder one call at a time, stopping at the first
   * exception.  The builder ends in exactly the state `RunAll` predicts.
   */
  method Drive(t: TreeOutput, events: seq<Event>) returns (raised: bool)
    modifies t
    ensures raised <==> RunAll(old(t.vstack), events).Raised?
    ensures !raised ==> t.vstack == RunAll(old(t.vstack), events).stack
  {
    var i := 0;
    while i < |events|
      invariant 0 <= i <= |events|
      invariant RunAll(old(t.vstack), events) == RunAll(t.vstack, events[i..])
    {
      assert events[i..][0] == events[i] && events[i..][1..] == events[i + 1..];
      raised := Feed(t, events[i]);
      if raised {
        return;
      }
      i := i + 1;
    }
    raised := false;
  }

  /**
   * A complete postfix expression fed to a fresh builder: no call raises
   * and `result` returns the root that `RunAll` predicts.
   */
  method Assemble(events: seq<Event>) returns (r: Extracted)
    requires Postfix(0, events) && Height(0, events) == 1
    ensures RunAll([], events).Ok? && |RunAll([], events).stack| == 1
    ensures r == Root(RunAll([], events).stack[0])
  {
    var t := new TreeOutput();
    var raised := Drive(t, events);
    CompleteExpressionHasOneRoot(events);
    r := t.Result();
  }
}
