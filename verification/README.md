# OpPrec::TreeOutput in Dafny

A model of the tree builder of an operator-precedence expression parser
written in Ruby (`OpPrec::TreeOutput`, treeoutput.rb). The parser's driver
reports two kinds of events. `value v` pushes a leaf onto the operand stack
`@vstack`. `oper o` pops up to two operands and pushes one node in their
place. At the end, `result` hands back the single root.

The node pushed by `oper` is chosen by six rewrite rules, tried in order:

- R1 splices an explicit argument list (`:flatten`).
- R2 merges a call into a method call.
- R3 extends a method-call node by its arguments.
- R4 builds a flat index node.
- R5 turns a comma chain into a flat array literal.
- R6 builds a plain binary or unary node.

`flatten` turns a right-nested run of `:comma` nodes into one flat array.

Files:

- `terms.dfy` (module `Terms`): the Ruby values the builder can observe, as
  the datatype `Term`. It has `Nil`, symbols, opaque leaves and arrays. A
  *node* is an array whose first element is a symbol. The module also holds
  Ruby's `compact` and a size measure used in proofs.
- `flatten.dfy` (module `Flattening`): `flatten` as a pure recursive function,
  with its properties.
- `rewrite.dfy` (module `Rewriting`): rule selection and the node each rule
  builds, as pure functions, with lemmas about rule priority and node shapes.
- `treeoutput.dfy` (module `OpPrec`): the class `TreeOutput`. Its field
  `vstack: seq<Term>` is `@vstack`, with the top at the end. `Reset`, `Value`
  and `Oper` change the field in place. `Result` only reads it.
- `events.dfy` (module `Events`): a whole run of `value`/`oper` events as a
  pure function, the proof that a well-formed postfix run leaves exactly one
  root, and methods that feed such a run to a `TreeOutput` and reach the
  state the function predicts.
- `scenarios.dfy` (module `Scenarios`): client methods that drive a
  `TreeOutput` through concrete event sequences. Each one proves the tree
  that results.

Errors are values: `Oper` returns `MissingValue` where the Ruby code raises
"Missing value in expression". `Result` returns `IncompleteExpression` where
it raises "Incomplete expression". The stack is left exactly as the Ruby code
leaves it at the point of the raise.

Behaviour of the code worth knowing, all of it kept by the model:

- The left operand becomes the empty list for `:flatten` whenever it is
  `nil` (treeoutput.rb:26). That includes a `nil` popped from an empty stack
  or a `nil` pushed as a value, not only the case where no left operand was
  popped.
- The empty argument list is `[:flatten, []]`: `:flatten` applied with no
  operands gets `[]` as its left operand, and R6 keeps it because `[]` is not
  `nil`. A call on it therefore ends in one `[]` argument, not in none
  (`Rewriting.CallOnEmptyArgumentList`, `Scenarios.CallWithoutArguments`).
- Right-nested comma applications over leaves `e1, …, en` build
  `[:comma, e1, e2]` for n = 2 and `[:comma, e1, [e2, …, en]]` for n >= 3,
  not a chain of comma nodes: each comma flattens the node below it through
  R6. `:array` then yields the flat literal `[:array, e1, …, en]`
  (`Scenarios.ArrayLiteral`).
- The last element of an array literal is spliced when it is an array other
  than an `:array` node: `[a, b, f(x)]` becomes
  `[:array, a, b, :call, f, x]`, and the call loses its nesting
  (treeoutput.rb:17, `Rewriting.ArrayLiteralSplicesLastCall`). Earlier
  elements keep theirs.
- Pushing `a` and `b`, applying a comma, pushing `c` and applying `:array`
  yields `[:array, [a, b], c]` and not `[:array, a, b, c]`. The right operand
  is then a leaf, so R6 applies (`Scenarios.CommaThenArray`).
- `flatten` splices any second child that is an array but not an `:array`
  node, tag included (`Flattening.FlattenSplicesOtherArrays`).
- `flatten` is not idempotent in general. A comma node whose first child is
  the bare `:comma` symbol flattens to another comma node.
  `Flattening.FlattenIdempotent` proves that this is exactly the exception.
- `result` on an empty stack returns `nil` (`@vstack[0]`), here `Root(Nil)`.
  It does not raise.
- One symbol, `:flatten`, serves both as the argument-list marker and as the
  operator that builds empty argument lists.

## Model

| member | source | states |
|---|---|---|
| `Terms.Compact` | treeoutput.rb:39-43 | Ruby's `compact`: the result holds no `nil`, holds exactly the non-`nil` elements of the input, and is the input itself when the input has no `nil` |
| `Terms.Present` | treeoutput.rb:39-43 | one slot of `compact`: empty for `nil`, the one-element sequence `[t]` otherwise |
| `Flattening.SecondAndThird` | treeoutput.rb:16 | Ruby's `r[1..2]`: the first two elements after the tag, or every element after it when fewer than two are there |
| `Flattening.Flatten` | treeoutput.rb:13-18 | `flatten` maps arrays to arrays and everything else to a non-array, which is what lets the recursive case append the flattened second child |
| `Flattening.FlattenShrinks` | treeoutput.rb:14-17 | a term that is not a comma node is returned unchanged; a comma node comes back strictly smaller (by constructor count) |
| `Flattening.FlattenFixedExactlyOffCommaNodes` | treeoutput.rb:14-17 | `flatten(r) == r` holds if and only if `r` is not a comma node |
| `Flattening.FlattenPair` | treeoutput.rb:16 | a comma node whose second child is a non-array or an `:array` node yields exactly its two children, tag dropped |
| `Flattening.FlattenStep` | treeoutput.rb:17 | a comma node whose second child is an array other than an `:array` node yields its first child followed by the flattening of that array |
| `Flattening.FlattenSplicesOtherArrays` | treeoutput.rb:17 | a second child that is any other non-comma array is spliced in whole, its tag included |
| `Flattening.FlattenChain` | treeoutput.rb:16-17 | a right-nested chain of n comma nodes flattens to its n first children in order, followed by the last link's contribution (the link itself, or its items if it is another array) |
| `Flattening.FlattenChainLength` | treeoutput.rb:16-17 | a chain of n comma nodes ending in a non-array or an `:array` node flattens to exactly n+1 elements, left to right |
| `Flattening.FlattenIdempotent` | treeoutput.rb:13-18 | flattening twice equals flattening once if and only if the input is not a comma node whose first child is the bare `:comma` symbol |
| `Flattening.FlattenNotIdempotentOnBareCommaChild` | treeoutput.rb:16-17 | for `[:comma, :comma, x]` one flatten gives `[:comma, x]` and a second gives `[x]` |
| `Rewriting.SelectRule` | treeoutput.rb:32-43 | first match: each of R1–R5 is chosen exactly when its own guard (head tag of the operand and operator symbol) holds and no earlier guard does; R6 exactly when no guard holds |
| `Rewriting.Rewrite` | treeoutput.rb:32-44 | whichever rule applies, the pushed value is a node: a non-empty array whose first slot holds a symbol |
| `Rewriting.RewriteTag` | treeoutput.rb:32-44 | the node's tag is the operator's symbol under every rule except R3, where it is the existing `:callm` |
| `Rewriting.SpliceTakesPrecedence` | treeoutput.rb:32-33 | a `:flatten` right operand selects R1 for every operator, including `:callm`, `:index` and `:array`, and the node carries the operator's tag |
| `Rewriting.SplicingRulesKeepLeftSlot` | treeoutput.rb:32-35 | R1 and R2 keep the left slot even when it is `nil`, followed by the flattened untagged right operand |
| `Rewriting.CompactingRulesDropMissingLeft` | treeoutput.rb:38-41 | the whole R4/R5 node: the tag, the left operand only when it is not `nil`, then the flattened untagged right operand (R4) or the flattened right operand (R5) |
| `Rewriting.MethodCallFoldExtends` | treeoutput.rb:36-37 | R3 extends the `:callm` node by exactly one trailing element, the flattened right operand, keeping all its existing elements |
| `Flattening.FlattenNil` | treeoutput.rb:14 | `flatten` yields `nil` exactly for `nil` |
| `Rewriting.DefaultRuleShape` | treeoutput.rb:42-43 | R6 gives the tag followed by the flattened operands that are present, so its length is 1 plus the number of present operands, and it holds no `nil` |
| `Rewriting.ArrayOnCommaNode` | treeoutput.rb:40-41 | `:array` applied to any comma node gives the tag, the left operand if present, then the flattened comma node |
| `Rewriting.ArrayFromChain` | treeoutput.rb:40-41 | `:array` applied to any right-nested comma chain gives the tag, the left operand if present, the chain's first children in order, and what the last link contributes |
| `Flattening.FlattenCommaRun` | treeoutput.rb:16-17 | the node right-nested commas build over leaves flattens back to all of the leaves, in order |
| `Rewriting.CommaRunStarts` | treeoutput.rb:42-43 | a comma on two leaves builds `[:comma, a, b]` |
| `Rewriting.CommaExtendsRun` | treeoutput.rb:42-43 | a comma on a leaf and a run `[:comma, e1, …]` over leaves builds the run over the leaf followed by those leaves, with the inner run flattened |
| `Rewriting.ArrayOfCommaRun` | treeoutput.rb:40-41 | unary `:array` on the run over n >= 2 leaves yields `[:array, e1, …, en]` |
| `Rewriting.ArrayLiteralSplicesLastCall` | treeoutput.rb:13-43 | pushing `a`, `b` and a call node `[:call, f, x]`, two commas and a unary `:array` yield `[:array, a, b, :call, f, x]` |
| `Rewriting.ArrayOfLeaf` | treeoutput.rb:42-43 | unary `:array` on a single leaf yields `[:array, e]` |
| `Rewriting.IndexFromArrayLiteral` | treeoutput.rb:38-39 | `:index` applied to an array literal gives one flat index node: the target if present, then the indices |
| `Rewriting.CallSplicesArguments` | treeoutput.rb:32-33 | an argument list `[:flatten, a1, …, an]` on the right is spliced after the callee, for every operator |
| `Rewriting.EmptyArgumentList` | treeoutput.rb:26 | `:flatten` with no operands builds `[:flatten, []]`, keeping the `[]` that replaced the missing left operand |
| `Rewriting.CallOnEmptyArgumentList` | treeoutput.rb:32-33 | a call on `[:flatten, []]` ends in one `[]` argument |
| `Rewriting.ChainedCallMerges` | treeoutput.rb:34-35 | `:callm` applied to a `:call` node merges the call's elements into the method-call node |
| `OpPrec.Consumed` | treeoutput.rb:22-24 | `oper` pops nothing for `arity <= 0`; at least one element (the right operand) when `arity > 0` and the stack is not empty; two when `arity > 1` and two are there; never more than the stack holds, than the arity, or than two |
| `OpPrec.RequiredOperandsPresent` | treeoutput.rb:21-24 | when `minarity <= arity` and `oper` does not raise, at least `min(minarity, 2)` real operands were taken, and the right operand is the old top |
| `OpPrec.TreeOutput.constructor` | treeoutput.rb:5-7 | a new builder starts with an empty stack |
| `OpPrec.TreeOutput.Reset` | treeoutput.rb:9-11 | the stack is emptied |
| `OpPrec.TreeOutput.Pop` | treeoutput.rb:22-24 | Ruby's `pop`: removes and returns the top, or returns `nil` and leaves an empty stack empty |
| `OpPrec.TreeOutput.Oper` | treeoutput.rb:20-46 | raises exactly when the stack is empty and `minarity > 0`, or the right operand was the last element and `minarity > 1`; after a raise the stack is empty (unchanged if it was empty, the right operand gone otherwise); on success (`Applied`) the consumed operands are replaced by the rewritten node and every deeper element is untouched |
| `OpPrec.TreeOutput.Value` | treeoutput.rb:48 | exactly one element is appended on top |
| `OpPrec.TreeOutput.Result` | treeoutput.rb:50-53 | raises exactly when more than one element is left; otherwise returns the bottom element, or `nil` for an empty stack; the stack is not changed |
| `Events.Step` | treeoutput.rb:20-48 | one event: `value` appends; `oper` raises exactly on a missing operand, and otherwise leaves the stack `TreeOutput.Oper` promises: the elements below the consumed operands, then the rewritten node |
| `Events.PostfixRuns` | treeoutput.rb:20-48 | a postfix run of values and regular operators (arity 0 to 2, `minarity <= arity`, at least `minarity` operands present; a tolerant operator takes what is there) never raises and leaves the height its events count |
| `Events.TolerantOperatorsComplete` | treeoutput.rb:21-26 | the runs of `target[i, j]` (an `:index` that finds only the array) and of `obj.m()` (a nullary `:flatten`) are complete postfix expressions |
| `Events.CompleteExpressionHasOneRoot` | treeoutput.rb:20-48 | a postfix run that counts to one element on an empty stack runs without an exception and leaves exactly one element |
| `Events.Feed` | treeoutput.rb:20-48 | `TreeOutput` fed one event raises exactly when `Step` does and otherwise ends with the stack `Step` gives |
| `Events.Drive` | treeoutput.rb:20-48 | `TreeOutput` fed a whole run raises exactly when `RunAll` does and otherwise ends with the stack `RunAll` gives |
| `Events.Assemble` | treeoutput.rb:5-53 | a fresh builder fed a complete postfix expression raises nothing, and `result` returns the one element `RunAll` leaves |
| `Scenarios.CommaWithoutLeftOperand` | treeoutput.rb:21-23 | a binary comma on a one-element stack raises after taking the right operand, leaving the stack empty |
| `Scenarios.ArrayLiteral` | treeoutput.rb:40-43 | for any n >= 1 leaves: pushing them, applying n - 1 commas and a unary `:array` yields `[:array, e1, …, en]` |
| `Scenarios.PushAll` | treeoutput.rb:48 | `value` for each element appends them all, in order |
| `Scenarios.FoldCommas` | treeoutput.rb:20-46 | n - 1 commas on a stack of exactly n leaves leave only their comma run |
| `Scenarios.CommaStep` | treeoutput.rb:20-46 | one more comma joins the leaf below the run to its front |
| `Scenarios.CallWithoutArguments` | treeoutput.rb:26-33 | `obj`, `:flatten` with no operands, binary `:callm` yields `[:callm, obj, []]` |
| `Scenarios.CommaThenArray` | treeoutput.rb:42-43 | `a`, `b`, comma, `c`, binary `:array` yields `[:array, [a, b], c]` |
| `Scenarios.IndexExpression` | treeoutput.rb:38-41 | `target`, `i`, `j`, comma, `:array`, `:index` yields `[:index, target, i, j]` |
| `Scenarios.MethodCallWithArgument` | treeoutput.rb:36-37 | `obj`, `m`, `:callm`, `a`, `:call` yields `[:callm, obj, m, a]` |
| `Scenarios.UnderAppliedExpression` | treeoutput.rb:50-51 | two values and no operator make `result` raise |

## Left out

- Exception messages: they are built with `inspect` and are not modelled. Only the fact that `oper` or `result` raised is kept.
- The operator object's class and the precedence-climbing driver that calls `value` and `oper` are not part of this model. An operator is the record `Operator(sym, arity, minarity)`. The `Events` module treats the driver's calls as an abstract event sequence.
- Ruby's open-ended values: leaves are opaque `Val(token)` strings. There is no `false` value, so `!leftv` at treeoutput.rb:26 is modelled as "is `nil`".
- Consumers of the finished tree (code generation, printing) are not part of this component.
- ArrayLiteral: proved for elements that are leaves only. When the last element is itself an array other than an `:array` node, `flatten` splices it into the literal (`Rewriting.ArrayLiteralSplicesLastCall`), so no single flat shape holds for arbitrary elements.
