/** The tables that the explicit-stack traversal keeps, and how its steps change them. */
module VisitTables {
  import opened Blocks
  import opened Traversal
  import opened TraversalInvariant
  import opened StackRefinement

  /** The default value, VisitOrder(-1, false, false), is what a lookup of a new key inserts. */
  datatype VisitOrder = VisitOrder(order: int, visitedResolve: bool, visitedBranches: bool)

  const NotVisited := VisitOrder(-1, false, false)

  function VisitedBlocks(m: map<BlockId, VisitOrder>): set<BlockId> {
    set b | b in m && m[b].visitedBranches
  }

  /** m after a lookup that inserts the default when the key is missing. */
  function Touched(m: map<BlockId, VisitOrder>, b: BlockId): (r: map<BlockId, VisitOrder>)
    ensures VisitedBlocks(r) == VisitedBlocks(m)
  {
    if b in m then m else m[b := NotVisited]
  }

  /** m after a lookup that inserts an empty list when the key is missing. */
  function Inserted(m: EdgeMap, b: BlockId): EdgeMap {
    if b in m then m else m[b := []]
  }

  /** m after lookups of all blocks of po from position n on, the last one first. */
  ghost function Padded(m: EdgeMap, po: seq<BlockId>, n: nat): EdgeMap
    requires n <= |po|
    decreases |po| - n
  {
    if n == |po| then m else Inserted(Padded(m, po, n + 1), po[n])
  }

  /** Padding changes no list, and gives every block of po one. */
  lemma {:induction false} PaddedLists(m: EdgeMap, po: seq<BlockId>, n: nat, b: BlockId)
    requires n <= |po|
    ensures EdgesOf(Padded(m, po, n), b) == EdgesOf(m, b)
    ensures b in Padded(m, po, n) <==> b in m || b in po[n..]
    decreases |po| - n
  {
    if n < |po| {
      PaddedLists(m, po, n + 1, b);
      assert po[n..] == [po[n]] + po[n + 1..];
    }
  }

  /** The block at position i of the post order has been resolved, with number i + 1. */
  ghost predicate ResolvedAt(visitOrder: map<BlockId, VisitOrder>, postOrder: seq<BlockId>, i: int) {
    0 <= i < |postOrder| ==> postOrder[i] in visitOrder && visitOrder[postOrder[i]] == VisitOrder(i + 1, true, true)
  }

  /** An entry outside the post order belongs to a block that has not been resolved. */
  ghost predicate Unresolved(f: Func, visitOrder: map<BlockId, VisitOrder>, postOrder: seq<BlockId>, b: BlockId) {
    b in visitOrder ==>
      b in f.blocks && (b !in postOrder ==> !visitOrder[b].visitedResolve && visitOrder[b].order == -1)
  }

  /** The visit-order entries agree with the post order, entry by entry. */
  ghost predicate Numbering(f: Func, visitOrder: map<BlockId, VisitOrder>, postOrder: seq<BlockId>) {
    && (forall i :: ResolvedAt(visitOrder, postOrder, i))
    && (forall b :: Unresolved(f, visitOrder, postOrder, b))
  }

  lemma NumberingTouched(f: Func, visitOrder: map<BlockId, VisitOrder>, postOrder: seq<BlockId>, b: BlockId)
    requires Numbering(f, visitOrder, postOrder) && b in f.blocks
    ensures Numbering(f, Touched(visitOrder, b), postOrder)
  {
    forall i ensures ResolvedAt(Touched(visitOrder, b), postOrder, i) {
      assert ResolvedAt(visitOrder, postOrder, i);
    }
    forall c ensures Unresolved(f, Touched(visitOrder, b), postOrder, c) {
      assert Unresolved(f, visitOrder, postOrder, c);
    }
  }

  lemma NumberingMarked(f: Func, visitOrder: map<BlockId, VisitOrder>, postOrder: seq<BlockId>, b: BlockId)
    requires Numbering(f, visitOrder, postOrder) && b in visitOrder
    ensures Numbering(f, visitOrder[b := visitOrder[b].(visitedBranches := true)], postOrder)
    ensures VisitedBlocks(visitOrder[b := visitOrder[b].(visitedBranches := true)]) == VisitedBlocks(visitOrder) + {b}
  {
    var marked := visitOrder[b := visitOrder[b].(visitedBranches := true)];
    forall i ensures ResolvedAt(marked, postOrder, i) {
      assert ResolvedAt(visitOrder, postOrder, i);
    }
    forall c ensures Unresolved(f, marked, postOrder, c) {
      assert Unresolved(f, visitOrder, postOrder, c);
    }
  }

  lemma NumberingResolved(f: Func, visitOrder: map<BlockId, VisitOrder>, postOrder: seq<BlockId>, b: BlockId)
    requires Numbering(f, visitOrder, postOrder) && b in visitOrder && visitOrder[b].visitedBranches && b !in postOrder
    ensures Numbering(f, visitOrder[b := VisitOrder(|postOrder| + 1, true, true)], postOrder + [b])
    ensures VisitedBlocks(visitOrder[b := VisitOrder(|postOrder| + 1, true, true)]) == VisitedBlocks(visitOrder)
  {
    var resolved := visitOrder[b := VisitOrder(|postOrder| + 1, true, true)];
    forall i ensures ResolvedAt(resolved, postOrder + [b], i) {
      assert ResolvedAt(visitOrder, postOrder, i);
    }
    forall c ensures Unresolved(f, resolved, postOrder + [b], c) {
      assert Unresolved(f, visitOrder, postOrder, c);
    }
  }

  lemma NumberingOf(f: Func, visitOrder: map<BlockId, VisitOrder>, postOrder: seq<BlockId>, b: BlockId)
    requires Numbering(f, visitOrder, postOrder)
    ensures b in visitOrder ==> b in f.blocks && (visitOrder[b].visitedResolve <==> b in postOrder)
    ensures b in postOrder ==> b in VisitedBlocks(visitOrder) && visitOrder[b].order == Order(postOrder, b)
  {
    assert Unresolved(f, visitOrder, postOrder, b);
    if b in postOrder {
      OrderIndex(postOrder, b);
      assert ResolvedAt(visitOrder, postOrder, Order(postOrder, b) - 1);
    }
  }

  /** The targets of the terminator are what cs holds from position k on. */
  ghost predicate TargetsFrom(block: Block, cs: seq<BlockId>, k: nat) {
    match block.terminator
    case Direct => |cs| == k + 1 && cs[k] == block.nextBlock
    case Select => |cs| == k + 2 && cs[k] == block.trueBlock && cs[k + 1] == block.falseBlock
    case MultiSelect =>
      && |cs| == k + |block.cases| + (if block.defaultBlock != 0 then 1 else 0)
      && (forall i :: 0 <= i < |block.cases| ==> cs[k + i] == block.cases[i])
      && (block.defaultBlock != 0 ==> cs[k + |block.cases|] == block.defaultBlock)
    case Unreachable => |cs| == k
    case Other => |cs| == k
  }

  lemma ChildrenEndInTargets(block: Block)
    ensures TargetsFrom(block, block.Children(), if block.merge.MergeNone? then 0 else 1)
  {
  }

  lemma TargetsListed(block: Block)
    ensures TargetsFrom(block, block.Targets(), 0)
  {
  }

  /** No id that the terminator names is 0, an absent default block excepted. */
  ghost predicate TargetsNotZero(block: Block) {
    match block.terminator
    case Direct => block.nextBlock != 0
    case Select => block.trueBlock != 0 && block.falseBlock != 0
    case MultiSelect => forall i :: 0 <= i < |block.cases| ==> block.cases[i] != 0
    case Unreachable => true
    case Other => true
  }

  lemma ChildrenNotZero(f: Func, b: BlockId)
    requires f.WellFormed() && b in f.blocks
    ensures b != 0 && TargetsNotZero(f.blocks[b])
    ensures f.blocks[b].merge.MergeLoop? ==> f.blocks[b].mergeBlock != 0 && f.blocks[b].mergeBlock in f.blocks
    ensures f.blocks[b].merge.MergeSelection? ==> f.blocks[b].nextBlock != 0 && f.blocks[b].nextBlock in f.blocks
  {
    var block := f.blocks[b];
    TargetsListed(block);
    forall i | 0 <= i < |block.Targets()| ensures block.Targets()[i] != 0 {
      assert block.Targets()[i] in block.Children();
    }
    assert block.merge.MergeLoop? ==> block.Children()[0] == block.mergeBlock && block.mergeBlock in block.Children();
    assert block.merge.MergeSelection? ==> block.Children()[0] == block.nextBlock && block.nextBlock in block.Children();
  }

  /** Blocks that have an entry but are not visited are still waiting on the stack. */
  ghost predicate Pending(visitOrder: map<BlockId, VisitOrder>, stack: seq<BlockId>) {
    forall b :: b in visitOrder && b !in VisitedBlocks(visitOrder) ==> b in stack
  }

  lemma PendingPopped(f: Func, before: map<BlockId, VisitOrder>, after: map<BlockId, VisitOrder>, stack: seq<BlockId>)
    requires stack != [] && AllBlocks(f, stack) && Pending(before, stack) && stack[|stack| - 1] in VisitedBlocks(before)
    requires before.Keys == after.Keys && VisitedBlocks(before) == VisitedBlocks(after)
    ensures AllBlocks(f, stack[..|stack| - 1]) && Pending(after, stack[..|stack| - 1])
  {
    assert stack == stack[..|stack| - 1] + [stack[|stack| - 1]];
    forall b | b in after && b !in VisitedBlocks(after) ensures b in stack[..|stack| - 1] {
      assert b in before.Keys && b in stack;
    }
  }

  lemma PendingPushed(before: map<BlockId, VisitOrder>, after: map<BlockId, VisitOrder>, b: BlockId,
                      stack: seq<BlockId>, pushed: seq<BlockId>)
    requires Pending(before, stack) && after.Keys == before.Keys + {b}
    requires VisitedBlocks(after) == VisitedBlocks(before) + {b}
    ensures Pending(after, stack + pushed)
  {
    forall c | c in after && c !in VisitedBlocks(after) ensures c in stack + pushed {
      assert c in before.Keys;
    }
  }

  /** Marking the top of the stack and pushing its batch in reverse. */
  lemma DescendStep(f: Func, st: State, before: map<BlockId, VisitOrder>, after: map<BlockId, VisitOrder>,
                    stack: seq<BlockId>, top: BlockId)
    requires f.WellFormed() && AllBlocks(f, stack) && NumberedVisited(st)
    requires stack != [] && stack[|stack| - 1] == top && top !in st.visited
    requires Pending(before, stack) && after.Keys == before.Keys + {top}
    requires VisitedBlocks(before) == st.visited && VisitedBlocks(after) == st.Mark(top).visited
    ensures var cs := f.blocks[top].Children();
            var batch := PrunedAll(VisitedBlocks(after), cs, |cs|);
            var pushed := stack + Reversed(batch);
            && AllBlocks(f, pushed) && Pending(after, pushed)
            && Drain(f, st.Mark(top), pushed) == Drain(f, st, stack)
            && pushed != [] && (batch != [] <==> pushed[|pushed| - 1] !in st.Mark(top).visited)
  {
    var cs := f.blocks[top].Children();
    var batch := PrunedAll(VisitedBlocks(after), cs, |cs|);
    PushKeepsOutcome(f, st, stack, top, batch);
    PendingPushed(before, after, top, stack, Reversed(batch));
    if batch == [] {
      assert stack + Reversed(batch) == stack;
    } else {
      assert batch[0] in batch;
    }
  }

  lemma PushedOnTop(stack: seq<BlockId>, batch: seq<BlockId>, pushed: seq<BlockId>)
    requires pushed == stack + batch
    ensures pushed[..|stack|] == stack && pushed[|stack|..] == batch
    ensures |pushed| == |stack| <==> batch == []
  {
  }

  /** One more target handled in order. */
  lemma LinkOne(st: State, u: BlockId, vs: seq<BlockId>, n: nat)
    requires n < |vs|
    ensures st.AddForwardAll(u, vs, n + 1) == st.AddForwardAll(u, vs, n).AddForward(u, vs[n])
  {
  }
}
