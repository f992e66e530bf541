/** The control-flow graph as the program builds and queries it. */
module ControlFlow {
  import opened Blocks
  import opened Paths
  import opened Traversal
  import opened TraversalInvariant
  import opened TraversalResults
  import opened StackRefinement
  import opened DominatorTree
  import opened VisitTables
  import opened CommonDominator
  import opened Reducible
  import opened LoopQuery
  import opened SubgraphQuery
  import opened Walk

  class CFG {
    const func: Func
    /** Stands for the compiler's answer to "does execution run from the first block to the second without branching?" */
    const branchless: Oracle

    var precedingEdges: EdgeMap
    var virtualDominancePrecedingEdges: EdgeMap
    var succeedingEdges: EdgeMap
    var immediateDominators: map<BlockId, BlockId>
    var visitOrder: map<BlockId, VisitOrder>
    var postOrder: seq<BlockId>
    var visitCount: nat
    var visitStack: seq<BlockId>
    var lastVisitedSize: nat

    /** The fields as a state of the recursive traversal. */
    ghost function Traversed(): State
      reads this
    {
      State(VisitedBlocks(visitOrder), postOrder, precedingEdges, virtualDominancePrecedingEdges, succeedingEdges)
    }

    ghost predicate Consistent()
      reads this
    {
      func.WellFormed() && visitCount == |postOrder| && Numbering(func, visitOrder, postOrder)
    }

    // ---------- lookups ----------

    predicate IsBackEdge(to: BlockId)
      requires Consistent()
      reads this
      ensures IsBackEdge(to) <==> Traversed().OnStack(to)
    {
      NumberingOf(func, visitOrder, postOrder, to);
      to in visitOrder && visitOrder[to].visitedBranches && !visitOrder[to].visitedResolve
    }

    predicate HasVisitedBranch(to: BlockId)
      reads this
      ensures HasVisitedBranch(to) <==> to in Traversed().visited
    {
      to in visitOrder && visitOrder[to].visitedBranches
    }

    // ---------- recording edges ----------

    method AddBranch(from: BlockId, to: BlockId)
      requires from != 0 && to != 0
      modifies this`precedingEdges, this`succeedingEdges
      ensures Traversed() == old(Traversed()).AddBranch(from, to)
    {
      precedingEdges := AddEdge(precedingEdges, to, from);
      succeedingEdges := AddEdge(succeedingEdges, from, to);
    }

    method AddVirtualDominanceBranch(from: BlockId, to: BlockId)
      requires from != 0 && to != 0
      modifies this`virtualDominancePrecedingEdges
      ensures Traversed() == old(Traversed()).AddVirtual(from, to)
    {
      virtualDominancePrecedingEdges := AddEdge(virtualDominancePrecedingEdges, to, from);
    }

    /** Adds the branch unless it is a back edge. */
    method AddForwardBranch(from: BlockId, to: BlockId)
      requires Consistent() && from != 0 && to != 0
      modifies this`precedingEdges, this`succeedingEdges
      ensures Traversed() == old(Traversed()).AddForward(from, to)
      ensures Consistent()
    {
      if !IsBackEdge(to) {
        AddBranch(from, to);
      }
    }

    // ---------- the traversal ----------

    method PostOrderVisitResolve(blockId: BlockId)
      requires Consistent() && blockId in func.blocks && HasVisitedBranch(blockId)
      modifies this`precedingEdges, this`succeedingEdges, this`virtualDominancePrecedingEdges
      modifies this`visitOrder, this`visitCount, this`postOrder
      ensures Consistent()
      ensures Traversed() == old(Traversed()).Resolve(blockId, func.blocks[blockId])
      ensures visitOrder.Keys == old(visitOrder.Keys) && VisitedBlocks(visitOrder) == old(VisitedBlocks(visitOrder))
    {
      var block := func.blocks[blockId];
      NumberingOf(func, visitOrder, postOrder, blockId);
      if visitOrder[blockId].visitedResolve {
        return;
      }
      ChildrenNotZero(func, blockId);
      LinkMerge(blockId, block);
      TargetsListed(block);
      LinkTargets(blockId, block, block.Targets());
      LinkSelectionMerge(blockId, block);
      NumberBlock(blockId);
    }

    /** The end of the resolve step: the block gets the next number. */
    method NumberBlock(blockId: BlockId)
      requires Consistent() && HasVisitedBranch(blockId) && blockId !in postOrder
      modifies this`visitOrder, this`visitCount, this`postOrder
      ensures Consistent() && Traversed() == old(Traversed()).(postOrder := old(postOrder) + [blockId])
      ensures visitOrder.Keys == old(visitOrder.Keys)
    {
      NumberingResolved(func, visitOrder, postOrder, blockId);
      visitCount := visitCount + 1;
      visitOrder := visitOrder[blockId := VisitOrder(visitCount, true, true)];
      postOrder := postOrder + [blockId];
    }

    /** The header-to-merge edge at the start of the resolve step. */
    method LinkMerge(blockId: BlockId, block: Block)
      requires Consistent() && blockId != 0
      requires (block.merge.MergeLoop? ==> block.mergeBlock != 0) && (block.merge.MergeSelection? ==> block.nextBlock != 0)
      modifies this`precedingEdges, this`succeedingEdges, this`virtualDominancePrecedingEdges
      ensures Traversed() == old(Traversed()).AddMergeEdge(blockId, block)
      ensures Consistent()
    {
      if block.merge.MergeLoop? && !IsBackEdge(block.mergeBlock) {
        AddBranch(blockId, block.mergeBlock);
      }
      if block.merge.MergeSelection? && !IsBackEdge(block.nextBlock) {
        AddVirtualDominanceBranch(blockId, block.nextBlock);
      }
    }

    /** The switch over the terminator in the resolve step. */
    method LinkTargets(blockId: BlockId, block: Block, ghost targets: seq<BlockId>)
      requires Consistent() && blockId != 0 && TargetsNotZero(block) && TargetsFrom(block, targets, 0)
      modifies this`precedingEdges, this`succeedingEdges
      ensures Traversed() == old(Traversed()).AddForwardAll(blockId, targets, |targets|)
      ensures Consistent()
    {
      ghost var start := Traversed();
      match block.terminator {
        case Direct =>
          AddForwardBranch(blockId, block.nextBlock);
          LinkOne(start, blockId, targets, 0);
        case Select =>
          AddForwardBranch(blockId, block.trueBlock);
          LinkOne(start, blockId, targets, 0);
          AddForwardBranch(blockId, block.falseBlock);
          LinkOne(start, blockId, targets, 1);
        case MultiSelect =>
          LinkCases(blockId, block.cases, targets);
          if block.defaultBlock != 0 {
            AddForwardBranch(blockId, block.defaultBlock);
            LinkOne(start, blockId, targets, |block.cases|);
          }
        case Unreachable =>
        case Other =>
      }
    }

    /** The loop over the case list in the resolve step. */
    method LinkCases(blockId: BlockId, cases: seq<BlockId>, ghost targets: seq<BlockId>)
      requires Consistent() && blockId != 0
      requires |cases| <= |targets| && forall i :: 0 <= i < |cases| ==> targets[i] == cases[i] && cases[i] != 0
      modifies this`precedingEdges, this`succeedingEdges
      ensures Traversed() == old(Traversed()).AddForwardAll(blockId, targets, |cases|)
      ensures Consistent()
    {
      for i := 0 to |cases|
        invariant Traversed() == old(Traversed()).AddForwardAll(blockId, targets, i)
        invariant Consistent()
      {
        AddForwardBranch(blockId, cases[i]);
        LinkOne(old(Traversed()), blockId, targets, i);
      }
    }

    /** The fixup for selection merges at the end of the resolve step. */
    method LinkSelectionMerge(blockId: BlockId, block: Block)
      requires Consistent() && blockId != 0 && (block.merge.MergeSelection? ==> block.nextBlock != 0)
      modifies this`precedingEdges, this`succeedingEdges
      ensures Traversed() == old(Traversed()).AddFixup(blockId, block)
      ensures Consistent()
    {
      if block.merge.MergeSelection? && !IsBackEdge(block.nextBlock) {
        if block.nextBlock in precedingEdges {
          var pred := precedingEdges[block.nextBlock];
          var numSucceedingEdges := if blockId in succeedingEdges then |succeedingEdges[blockId]| else 0;
          if block.terminator.MultiSelect? && numSucceedingEdges == 1 {
            if pred != [] {
              AddBranch(blockId, block.nextBlock);
            }
          } else if |pred| == 1 && pred[0] != blockId {
            AddBranch(blockId, block.nextBlock);
          }
        } else {
          AddBranch(blockId, block.nextBlock);
        }
      }
    }

    /** On top of base lies the batch for the first n of the children cs. */
    ghost predicate BatchFor(base: seq<BlockId>, cs: seq<BlockId>, n: nat)
      reads this
    {
      && lastVisitedSize == |base| && n <= |cs|
      && visitStack == base + PrunedAll(VisitedBlocks(visitOrder), cs, n)
    }

    /** Pushes child n of cs unless it is in the batch already, or visited already. */
    method VisitBranch(blockId: BlockId, ghost base: seq<BlockId>, ghost cs: seq<BlockId>, ghost n: nat)
      requires BatchFor(base, cs, n) && n < |cs| && cs[n] == blockId
      modifies this`visitStack
      ensures BatchFor(base, cs, n + 1)
    {
      if blockId !in visitStack[lastVisitedSize..] && !HasVisitedBranch(blockId) {
        visitStack := visitStack + [blockId];
      }
    }

    /** Marks a block and pushes its batch of children; nothing happens to a block already marked. */
    method PostOrderVisitBranches(blockId: BlockId)
      requires Consistent() && blockId in func.blocks && lastVisitedSize == |visitStack|
      modifies this`visitStack, this`visitOrder
      ensures Consistent()
      ensures visitOrder.Keys == old(visitOrder.Keys) + {blockId}
      ensures Traversed() == old(Traversed()).Mark(blockId)
      ensures blockId in old(Traversed()).visited ==> visitStack == old(visitStack)
      ensures blockId !in old(Traversed()).visited ==>
                BatchFor(old(visitStack), func.blocks[blockId].Children(), |func.blocks[blockId].Children()|)
    {
      var block := func.blocks[blockId];
      ghost var start, base, cs := Traversed(), visitStack, block.Children();
      NumberingTouched(func, visitOrder, postOrder, blockId);
      visitOrder := Touched(visitOrder, blockId);
      if visitOrder[blockId].visitedBranches {
        assert start.Mark(blockId).visited == start.visited;
        return;
      }
      NumberingMarked(func, visitOrder, postOrder, blockId);
      visitOrder := visitOrder[blockId := visitOrder[blockId].(visitedBranches := true)];
      if block.merge.MergeLoop? {
        VisitBranch(block.mergeBlock, base, cs, 0);
      } else if block.merge.MergeSelection? {
        VisitBranch(block.nextBlock, base, cs, 0);
      }
      ChildrenEndInTargets(block);
      VisitTargets(block, base, cs, if block.merge.MergeNone? then 0 else 1);
    }

    /** The switch over the terminator in the visit step; the targets are the children from k on. */
    method VisitTargets(block: Block, ghost base: seq<BlockId>, ghost cs: seq<BlockId>, ghost k: nat)
      requires BatchFor(base, cs, k) && TargetsFrom(block, cs, k)
      modifies this`visitStack
      ensures BatchFor(base, cs, |cs|)
    {
      match block.terminator {
        case Direct =>
          VisitBranch(block.nextBlock, base, cs, k);
        case Select =>
          VisitBranch(block.trueBlock, base, cs, k);
          VisitBranch(block.falseBlock, base, cs, k + 1);
        case MultiSelect =>
          VisitCases(block.cases, base, cs, k);
          if block.defaultBlock != 0 {
            VisitBranch(block.defaultBlock, base, cs, k + |block.cases|);
          }
        case Unreachable =>
        case Other =>
      }
    }

    /** The loop over the case list in the visit step. */
    method VisitCases(cases: seq<BlockId>, ghost base: seq<BlockId>, ghost cs: seq<BlockId>, ghost k: nat)
      requires BatchFor(base, cs, k)
      requires k + |cases| <= |cs| && forall i :: 0 <= i < |cases| ==> cs[k + i] == cases[i]
      modifies this`visitStack
      ensures BatchFor(base, cs, k + |cases|)
    {
      for i := 0 to |cases|
        invariant BatchFor(base, cs, k + i)
      {
        VisitBranch(cases[i], base, cs, k + i);
      }
    }

    ghost predicate PendingOnStack()
      reads this
    {
      AllBlocks(func, visitStack) && Pending(visitOrder, visitStack)
    }

    /** The explicit-stack traversal computes what the recursive search does, and leaves no pending entries behind. */
    method PostOrderVisitEntry(block: BlockId)
      requires Consistent() && block in func.blocks
      requires Traversed() == Start && visitOrder == map[] && visitStack == []
      modifies this`precedingEdges, this`succeedingEdges, this`virtualDominancePrecedingEdges
      modifies this`visitOrder, this`visitCount, this`postOrder, this`visitStack, this`lastVisitedSize
      ensures Consistent() && visitStack == []
      ensures Traversed() == Dfs(func, Start, block)
      ensures visitOrder.Keys == Traversed().visited
    {
      visitStack := visitStack + [block];
      ghost var outcome := Dfs(func, Start, block);
      assert visitStack[..0] == [] && Drain(func, outcome, []) == outcome;

      while visitStack != []
        invariant Leads(outcome)
        invariant visitStack != [] ==> visitStack[|visitStack| - 1] !in Traversed().visited
        decreases func.blocks.Keys - Traversed().visited
      {
        ghost var before := Traversed().visited;
        ghost var first := visitStack[|visitStack| - 1];
        var keepIterating := true;
        while keepIterating
          invariant Leads(outcome) && visitStack != []
          invariant keepIterating <==> visitStack[|visitStack| - 1] !in Traversed().visited
          invariant before <= Traversed().visited
          invariant first in Traversed().visited || visitStack[|visitStack| - 1] == first
          decreases func.blocks.Keys - Traversed().visited
        {
          ghost var start, stack, entries := Traversed(), visitStack, visitOrder;
          ghost var top := stack[|stack| - 1];
          assert top in stack;
          NumberedBlocksVisited();
          keepIterating := Descend();
          DescendStep(func, start, entries, visitOrder, stack, top);
        }
        Unwind(outcome);
        assert first in Traversed().visited && first in func.blocks;
      }
    }

    /** Draining the stack from the current state gives the outcome. */
    ghost predicate Leads(outcome: State)
      reads this
    {
      Consistent() && PendingOnStack() && Drain(func, Traversed(), visitStack) == outcome
    }

    /** Resolves and pops until the top of the stack is a block not visited yet. */
    method Unwind(ghost outcome: State)
      requires Leads(outcome)
      modifies this`precedingEdges, this`succeedingEdges, this`virtualDominancePrecedingEdges
      modifies this`visitOrder, this`visitCount, this`postOrder, this`visitStack
      ensures Leads(outcome)
      ensures Traversed().visited == old(Traversed().visited)
      ensures visitStack != [] ==> visitStack[|visitStack| - 1] !in Traversed().visited
    {
      while visitStack != []
        invariant Leads(outcome)
        invariant Traversed().visited == old(Traversed().visited)
        decreases |visitStack|
      {
        var top := visitStack[|visitStack| - 1];
        assert top in visitStack;
        NumberingTouched(func, visitOrder, postOrder, top);
        visitOrder := Touched(visitOrder, top);
        if !visitOrder[top].visitedBranches {
          break;
        }
        ghost var stack, pending := visitStack, visitOrder;
        DrainVisited(func, Traversed(), stack);
        PostOrderVisitResolve(top);
        visitStack := visitStack[..|visitStack| - 1];
        PendingPopped(func, pending, visitOrder, stack);
      }
    }

    /** One round of the inner do-while loop: visits the top of the stack and reverses the batch that it pushed. */
    method Descend() returns (keepIterating: bool)
      requires Consistent() && visitStack != [] && visitStack[|visitStack| - 1] in func.blocks
      requires visitStack[|visitStack| - 1] !in Traversed().visited
      modifies this`visitOrder, this`visitStack, this`lastVisitedSize
      ensures Consistent()
      ensures var top := old(visitStack[|visitStack| - 1]);
              var cs := func.blocks[top].Children();
              var batch := PrunedAll(VisitedBlocks(visitOrder), cs, |cs|);
              && visitOrder.Keys == old(visitOrder.Keys) + {top}
              && Traversed() == old(Traversed()).Mark(top)
              && visitStack == old(visitStack) + Reversed(batch)
              && (keepIterating <==> batch != [])
    {
      var toVisit := visitStack[|visitStack| - 1];
      ghost var stack := visitStack;
      lastVisitedSize := |visitStack|;
      PostOrderVisitBranches(toVisit);
      keepIterating := lastVisitedSize != |visitStack|;
      ghost var cs := func.blocks[toVisit].Children();
      PushedOnTop(stack, PrunedAll(VisitedBlocks(visitOrder), cs, |cs|), visitStack);
      if keepIterating {
        visitStack := visitStack[..lastVisitedSize] + Reversed(visitStack[lastVisitedSize..]);
      }
    }

    lemma NumberedBlocksVisited()
      requires Consistent()
      ensures NumberedVisited(Traversed())
    {
      forall b | b in postOrder ensures b in VisitedBlocks(visitOrder) {
        NumberingOf(func, visitOrder, postOrder, b);
      }
    }

    // ---------- immediate dominators ----------

    ghost function DomTree(): Tree
      reads this
    {
      Tree(func.entry, postOrder, immediateDominators)
    }

    function GetVisitOrder(block: BlockId): nat
      requires block in visitOrder && visitOrder[block].order > 0
      reads this
    {
      visitOrder[block].order
    }

    function GetImmediateDominator(block: BlockId): BlockId
      reads this
    {
      if block in immediateDominators then immediateDominators[block] else 0
    }

    /** Also used on the partly built tree, of which it needs no more than that numbers rise. */
    method FindCommonDominator(first: BlockId, second: BlockId) returns (a: BlockId)
      requires Consistent() && DomTree().Rising()
      requires first in immediateDominators && second in immediateDominators
      ensures a == DomTree().Meet(first, second)
    {
      a := first;
      var b := second;
      while a != b
        invariant a in immediateDominators && b in immediateDominators
        invariant DomTree().Meet(a, b) == DomTree().Meet(first, second)
        decreases |postOrder| - Order(postOrder, a) + |postOrder| - Order(postOrder, b)
      {
        assert DomTree().ParentOk(a) && DomTree().ParentOk(b);
        NumberingOf(func, visitOrder, postOrder, a);
        NumberingOf(func, visitOrder, postOrder, b);
        if GetVisitOrder(a) < GetVisitOrder(b) {
          a := GetImmediateDominator(a);
        } else {
          if Order(postOrder, a) == Order(postOrder, b) { OrderInjective(postOrder, a, b); }
          b := GetImmediateDominator(b);
        }
      }
    }

    /** One predecessor of the block. */
    method AttachEdge(block: BlockId, edge: BlockId)
      requires Consistent() && DomTree().Rising() && edge in immediateDominators
      modifies this`immediateDominators
      ensures DomTree() == Attach(old(DomTree()), block, edge)
    {
      assert DomTree().ParentOk(block) && DomTree().ParentOk(edge);
      if GetImmediateDominator(block) != 0 {
        assert immediateDominators[edge] != 0;
        var common := FindCommonDominator(immediateDominators[block], edge);
        immediateDominators := immediateDominators[block := common];
      } else {
        immediateDominators := immediateDominators[block := edge];
      }
    }

    method ResolvePreds(block: BlockId, pred: seq<BlockId>)
      requires Consistent() && Attachable(DomTree(), block, pred)
      modifies this`immediateDominators
      ensures DomTree() == AttachAll(old(DomTree()), block, pred, |pred|)
    {
      if pred == [] {
        return;
      }
      for i := 0 to |pred|
        invariant DomTree() == AttachAll(old(DomTree()), block, pred, i)
      {
        AttachEdge(block, pred[i]);
      }
    }

    /** The pass has reached position i. */
    ghost predicate BuiltFrom(final: State, i: nat)
      reads this
    {
      && i <= |postOrder| && postOrder == final.postOrder
      && DomTree() == PassTree(final, func.entry, i)
      && precedingEdges == Padded(final.pred, postOrder, i)
      && virtualDominancePrecedingEdges == Padded(final.virt, postOrder, i)
    }

    /** Dominators in one pass over the reversed post order. */
    method BuildImmediateDominators(ghost final: State)
      requires Consistent() && Traversed() == final
      requires forall n :: 0 <= n < |final.postOrder| ==> PassOk(final, func.entry, n)
      modifies this`immediateDominators, this`precedingEdges, this`virtualDominancePrecedingEdges
      ensures BuiltFrom(final, 0)
    {
      immediateDominators := map[func.entry := func.entry];
      var i := |postOrder|;
      while i > 0
        invariant 0 <= i && BuiltFrom(final, i)
      {
        BuildBlock(final, i);
        i := i - 1;
      }
    }

    /** One iteration of that pass. */
    method BuildBlock(ghost final: State, i: nat)
      requires Consistent() && i > 0 && BuiltFrom(final, i) && PassOk(final, func.entry, i - 1)
      modifies this`immediateDominators, this`precedingEdges, this`virtualDominancePrecedingEdges
      ensures BuiltFrom(final, i - 1)
    {
      var block := postOrder[i - 1];
      PaddedLists(final.pred, postOrder, i - 1, block);
      PaddedLists(final.virt, postOrder, i - 1, block);
      precedingEdges := Inserted(precedingEdges, block);
      ResolvePreds(block, precedingEdges[block]);
      virtualDominancePrecedingEdges := Inserted(virtualDominancePrecedingEdges, block);
      ResolvePreds(block, virtualDominancePrecedingEdges[block]);
    }

    method BuildPostOrderVisitOrder()
      requires func.WellFormed()
      requires precedingEdges == map[] && virtualDominancePrecedingEdges == map[] && succeedingEdges == map[]
      requires visitStack == []
      modifies this`precedingEdges, this`succeedingEdges, this`virtualDominancePrecedingEdges
      modifies this`visitOrder, this`visitCount, this`postOrder, this`visitStack, this`lastVisitedSize
      ensures Consistent() && visitStack == []
      ensures Traversed() == Final(func) && visitOrder.Keys == Traversed().visited
    {
      visitCount := 0;
      visitOrder := map[];
      postOrder := [];
      PostOrderVisitEntry(func.entry);
    }

    /** The finished graph: every field is determined by the function. */
    ghost predicate Valid()
      reads this
    {
      && Consistent()
      && visitOrder.Keys == VisitedBlocks(visitOrder) == Final(func).visited
      && postOrder == Final(func).postOrder
      && precedingEdges == Padded(Final(func).pred, postOrder, 0)
      && virtualDominancePrecedingEdges == Padded(Final(func).virt, postOrder, 0)
      && succeedingEdges == Final(func).succ
      && DomTree() == Dominators(func) && DomTree().Rising()
    }

    constructor (func: Func, branchless: Oracle)
      requires func.WellFormed()
      ensures this.func == func && this.branchless == branchless && Valid()
    {
      this.func := func;
      this.branchless := branchless;
      precedingEdges, virtualDominancePrecedingEdges, succeedingEdges := map[], map[], map[];
      immediateDominators, visitOrder, postOrder := map[], map[], [];
      visitCount, visitStack, lastVisitedSize := 0, [], 0;
      new;
      BuildPostOrderVisitOrder();
      PassNeverFails(func);
      BuildImmediateDominators(Final(func));
      OnePassSuffices(func);
    }

    // ---------- queries ----------

    predicate IsReachable(block: BlockId)
      requires Valid()
      reads this
      ensures IsReachable(block) <==> Reaches(Flow(func), func.entry, block)
    {
      FinalInv(func);
      Coverage(func);
      block in visitOrder
    }

    /** The number of every reachable block can be looked up; it is its place in the post order, and largest for the entry. */
    lemma VisitOrderOf(block: BlockId)
      requires Valid() && Reaches(Flow(func), func.entry, block)
      ensures block in visitOrder && visitOrder[block].order > 0
      ensures 1 <= GetVisitOrder(block) <= |postOrder| && postOrder[GetVisitOrder(block) - 1] == block
      ensures block == func.entry ==> GetVisitOrder(block) == |postOrder|
    {
      Coverage(func);
      FinalInv(func);
      NumberingOf(func, visitOrder, postOrder, block);
      OrderIndex(postOrder, block);
    }

    /** The lookup answers 0 exactly for unreachable blocks, the entry for itself, and else the closest strict dominator. */
    lemma ImmediateDominatorOf(block: BlockId, x: BlockId)
      requires Valid()
      ensures GetImmediateDominator(block) == 0 <==> !Reaches(Flow(func), func.entry, block)
      ensures GetImmediateDominator(func.entry) == func.entry
      ensures Reaches(Flow(func), func.entry, block) && block != func.entry ==>
                && GetImmediateDominator(block) != block && Dom(func, GetImmediateDominator(block), block)
                && (x != block && Dom(func, x, block) ==> Dom(func, x, GetImmediateDominator(block)))
    {
      Coverage(func);
      OnePassSuffices(func);
      assert DomTree().ParentOk(block);
      if block in immediateDominators && block != func.entry {
        ImmediateDominatorIsClosest(func, Dominators(func), block, x);
      }
    }

    function GetPrecedingEdges(block: BlockId): (edges: seq<BlockId>)
      requires Valid()
      reads this
      ensures edges == EdgesOf(Final(func).pred, block)
    {
      PaddedLists(Final(func).pred, postOrder, 0, block);
      if block in precedingEdges then precedingEdges[block] else []
    }

    function GetSucceedingEdges(block: BlockId): (edges: seq<BlockId>)
      requires Valid()
      reads this
      ensures edges == EdgesOf(Final(func).succ, block) == EdgesOf(succeedingEdges, block)
    {
      if block in succeedingEdges then succeedingEdges[block] else []
    }

    method FindLoopDominator(block: BlockId) returns (blockId: BlockId)
      requires Valid()
      ensures Layered(Final(func), func.entry)
      ensures blockId == LoopDominator(func, Final(func), func.entry, block)
      ensures blockId != 0
      ensures blockId == 0xffff_ffff || (IsLoop(func, blockId) && Below(postOrder, block, blockId))
    {
      FinalLayered(func);
      LoopDominatorRange(func, block, LoopDominator(func, Final(func), func.entry, block));
      blockId := block;
      SentinelHasNoLoop(func);
      while blockId != NO_DOMINATOR
        invariant LoopDominator(func, Final(func), func.entry, block) ==
                  LoopDominator(func, Final(func), func.entry, blockId)
        decreases |postOrder| - Order(postOrder, blockId), blockId != NO_DOMINATOR
      {
        PaddedLists(Final(func).pred, postOrder, 0, blockId);
        if blockId !in precedingEdges {
          return NO_DOMINATOR;
        }
        var preds := precedingEdges[blockId];
        if preds == [] {
          return NO_DOMINATOR;
        }
        PredecessorsAreBlocks(func, blockId);
        var predBlockId, ignoreLoopHeader := PickPredecessor(blockId, preds);
        LoopDominatorStep(func, blockId, predBlockId);
        blockId := predBlockId;
        if !ignoreLoopHeader && blockId != 0 {
          if func.blocks[blockId].merge.MergeLoop? {
            return;
          }
        }
      }
    }

    /** The loop over the predecessors: the first header of which blockId is the merge block, else the front. */
    method PickPredecessor(blockId: BlockId, preds: seq<BlockId>) returns (predBlockId: BlockId, ignoreLoopHeader: bool)
      requires preds != [] && NO_DOMINATOR !in preds && forall p :: p in preds ==> p in func.blocks
      ensures predBlockId == Upwards(func, preds, blockId)
      ensures ignoreLoopHeader <==> func.blocks[predBlockId].merge.MergeLoop? && func.blocks[predBlockId].mergeBlock == blockId
    {
      predBlockId := NO_DOMINATOR;
      ignoreLoopHeader := false;
      var i := 0;
      while i < |preds|
        invariant 0 <= i <= |preds| && FirstHeader(func, preds, blockId, i) == i
        invariant predBlockId == NO_DOMINATOR && !ignoreLoopHeader
      {
        var predBlock := func.blocks[preds[i]];
        if predBlock.merge.MergeLoop? && predBlock.mergeBlock == blockId {
          predBlockId := preds[i];
          ignoreLoopHeader := true;
          break;
        } else if predBlock.merge.MergeSelection? && predBlock.nextBlock == blockId {
          predBlockId := preds[i];
          break;
        }
        i := i + 1;
      }
      FirstHeaderFound(func, preds, blockId, i);
      if predBlockId == NO_DOMINATOR {
        predBlockId := preds[0];
      }
    }

    method NodeTerminatesControlFlowInSubGraph(from: BlockId, target: BlockId) returns (terminates: bool)
      requires Valid() && from in func.blocks
      ensures terminates == Terminates(func, branchless, from, target)
      ensures target == from ==> terminates
      ensures terminates ==> Dominates(Real(Final(func)), func.entry, from, target)
      ensures forall other ::
                NearestOfPreds(func, target, from) && Sides(func, from, target, other) && !Declares(func, from, target) ==>
                (terminates <==> func.blocks[from].merge.MergeLoop? && branchless(other, func.blocks[from].mergeBlock))
    {
      AnswerLaws(func, branchless, from, target, Terminates(func, branchless, from, target));
      var fromBlock := func.blocks[from];
      var ignoreBlockId := 0;
      if fromBlock.merge.MergeLoop? {
        ignoreBlockId := fromBlock.mergeBlock;
      }
      var to := target;
      while to != from
        invariant Terminates(func, branchless, from, target) == Terminates(func, branchless, from, to)
        decreases |postOrder| - Order(postOrder, to)
      {
        PaddedLists(Final(func).pred, postOrder, 0, to);
        PredDominatorAbove(func, to);
        if to !in precedingEdges {
          return false;
        }
        var dominator := PredecessorDominator(precedingEdges[to]);
        if dominator == 0 {
          return false;
        }
        var dom := func.blocks[dominator];
        var goUp := CanGoUp(dom, from, ignoreBlockId, to);
        if goUp {
          to := dominator;
        } else {
          return false;
        }
      }
      return true;
    }

    /** The dominator that a builder chooses for the given edges. */
    method PredecessorDominator(edges: seq<BlockId>) returns (dominator: BlockId)
      requires Valid()
      ensures dominator == AddAll(DomTree(), edges, |edges|)
    {
      var builder := new DominatorBuilder(this);
      for i := 0 to |edges|
        invariant builder.Valid() && builder.cfg == this
        invariant builder.dominator == AddAll(DomTree(), edges, i)
      {
        builder.AddBlock(edges[i]);
      }
      dominator := builder.GetDominator();
    }

    /** The cases in which the walk is allowed to go up to the block dom. */
    method CanGoUp(dom: Block, from: BlockId, ignoreBlockId: BlockId, to: BlockId) returns (goUp: bool)
      requires func.WellFormed() && from in func.blocks && ignoreBlockId == IgnoredBlock(func, from)
      requires dom.self in func.blocks && func.blocks[dom.self] == dom
      ensures goUp <==> MayGoUp(func, branchless, from, dom, to)
    {
      ChildrenNotZero(func, dom.self);
      var truePathIgnore, falsePathIgnore := false, false;
      var mergesToNothing :=
        || dom.merge.MergeNone?
        || (dom.merge.MergeSelection? && dom.nextBlock != 0 && func.blocks[dom.nextBlock].terminator.Unreachable?)
        || (dom.merge.MergeLoop? && dom.mergeBlock != 0 && func.blocks[dom.mergeBlock].terminator.Unreachable?);
      if dom.self == from || mergesToNothing {
        if ignoreBlockId != 0 && dom.terminator.Select? {
          truePathIgnore := branchless(dom.trueBlock, ignoreBlockId);
          falsePathIgnore := branchless(dom.falseBlock, ignoreBlockId);
        }
      }
      goUp :=
        || (dom.merge.MergeSelection? && dom.nextBlock == to)
        || (dom.merge.MergeLoop? && dom.mergeBlock == to)
        || (dom.terminator.Direct? && dom.nextBlock == to)
        || (dom.terminator.Select? && dom.trueBlock == to && falsePathIgnore)
        || (dom.terminator.Select? && dom.falseBlock == to && truePathIgnore);
    }

    /** Walks forward from block, into blocks not seen before, and past those that satisfy op. */
    method WalkFrom(seen: SeenBlocks, block: BlockId, op: BlockId -> bool)
      requires Valid()
      modifies seen
      ensures Complete(succeedingEdges, op, old(seen.blocks), block, seen.blocks, old(seen.calls), seen.calls)
      decreases func.blocks.Keys - seen.blocks
    {
      ghost var before, calls := seen.blocks, seen.calls;
      if block in seen.blocks {
        return;
      }
      seen.blocks := seen.blocks + {block};
      seen.calls := seen.calls + [block];
      Begin(succeedingEdges, op, before, block, calls);
      ghost var k := 0;
      if op(block) {
        var edges := GetSucceedingEdges(block);
        for i := 0 to |edges|
          invariant k == i && InProgress(succeedingEdges, op, before, block, k, seen.blocks, calls, seen.calls)
        {
          ghost var more, soFar := seen.blocks, seen.calls;
          SuccessorIsBlock(func, block, edges[i]);
          FewerUnseen(func.blocks.Keys, before, more, block);
          WalkFrom(seen, edges[i], op);
          Continue(succeedingEdges, op, before, block, k, more, seen.blocks, calls, soFar, seen.calls);
          k := k + 1;
        }
      }
      Finish(succeedingEdges, op, before, block, k, seen.blocks, calls, seen.calls);
    }
  }

  /** The caller's set of seen blocks; calls records the blocks on which the predicate was run, in order. */
  class SeenBlocks {
    var blocks: set<BlockId>
    ghost var calls: seq<BlockId>

    constructor (blocks: set<BlockId>)
      ensures this.blocks == blocks && calls == []
    {
      this.blocks := blocks;
      calls := [];
    }
  }

  class DominatorBuilder {
    const cfg: CFG
    var dominator: BlockId

    ghost predicate Valid()
      reads this, cfg
    {
      cfg.Valid() && (dominator != 0 ==> dominator in cfg.immediateDominators)
    }

    constructor (cfg: CFG)
      requires cfg.Valid()
      ensures Valid() && this.cfg == cfg && dominator == 0
    {
      this.cfg := cfg;
      dominator := 0;
    }

    function GetDominator(): BlockId
      reads this
    {
      dominator
    }

    method AddBlock(block: BlockId)
      requires Valid()
      modifies this
      ensures Valid()
      ensures dominator == AddStep(cfg.DomTree(), old(dominator), block)
    {
      assert cfg.DomTree().ParentOk(block);
      if cfg.GetImmediateDominator(block) == 0 {
        return;
      }
      if dominator == 0 {
        dominator := block;
        return;
      }
      if block != dominator {
        dominator := cfg.FindCommonDominator(block, dominator);
      }
    }

    method LiftContinueBlockDominator()
      requires Valid()
      modifies this
      ensures Valid()
      ensures old(dominator) == 0 ==> dominator == 0
      ensures old(dominator) != 0 ==> old(dominator) in cfg.func.blocks
      ensures old(dominator) != 0 ==>
                var targets := cfg.func.blocks[old(dominator)].Targets();
                && ((forall v :: v in targets ==> !Below(cfg.postOrder, old(dominator), v)) ==> dominator == old(dominator))
                && ((exists v :: v in targets && Below(cfg.postOrder, old(dominator), v)) ==> dominator == cfg.func.entry)
      ensures dominator == Lifted(cfg.func, cfg.postOrder, old(dominator))
    {
      if dominator == 0 {
        return;
      }
      OnePassSuffices(cfg.func);
      FinalInv(cfg.func);
      var block := cfg.func.blocks[dominator];
      NumberingOf(cfg.func, cfg.visitOrder, cfg.postOrder, dominator);
      var backEdgeDominator := BranchesBack(dominator, block);
      if backEdgeDominator {
        dominator := cfg.func.entry;
      }
    }

    /** Does the terminator have a target with a larger number? All targets of a visited block are numbered. */
    method BranchesBack(d: BlockId, block: Block) returns (backEdgeDominator: bool)
      requires cfg.Valid() && d in cfg.postOrder && d in cfg.func.blocks && block == cfg.func.blocks[d]
      ensures backEdgeDominator <==> LeadsBack(cfg.func, cfg.postOrder, d)
    {
      ghost var targets := block.Targets();
      TargetsListed(block);
      NumberingOf(cfg.func, cfg.visitOrder, cfg.postOrder, d);
      TargetsNumbered(cfg.func, d);
      forall i | 0 <= i < |targets| ensures targets[i] in cfg.postOrder && Numbered(targets[i]) {
        assert targets[i] in targets;
        NumberingOf(cfg.func, cfg.visitOrder, cfg.postOrder, targets[i]);
      }
      var postOrder := cfg.GetVisitOrder(d);
      backEdgeDominator := false;
      match block.terminator {
        case Direct =>
          backEdgeDominator := cfg.GetVisitOrder(block.nextBlock) > postOrder;
        case Select =>
          if cfg.GetVisitOrder(block.trueBlock) > postOrder {
            backEdgeDominator := true;
          }
          if cfg.GetVisitOrder(block.falseBlock) > postOrder {
            backEdgeDominator := true;
          }
        case MultiSelect =>
          backEdgeDominator := AnyCaseBack(d, block.cases, targets);
          if block.defaultBlock != 0 && cfg.GetVisitOrder(block.defaultBlock) > postOrder {
            backEdgeDominator := true;
          }
        case Unreachable =>
        case Other =>
      }
      LeadsBackByIndex(cfg.func, cfg.postOrder, d);
    }

    /** The loop over the case list. */
    method AnyCaseBack(d: BlockId, cases: seq<BlockId>, ghost targets: seq<BlockId>) returns (back: bool)
      requires Numbered(d) && d in cfg.postOrder
      requires |cases| <= |targets| && forall i :: 0 <= i < |cases| ==>
                 targets[i] == cases[i] && cases[i] in cfg.postOrder && Numbered(cases[i])
      ensures back <==> exists i :: 0 <= i < |cases| && Below(cfg.postOrder, d, targets[i])
    {
      var postOrder := cfg.GetVisitOrder(d);
      back := false;
      for i := 0 to |cases|
        invariant back <==> exists j :: 0 <= j < i && Below(cfg.postOrder, d, targets[j])
      {
        if cfg.GetVisitOrder(cases[i]) > postOrder {
          back := true;
        }
      }
    }

    ghost predicate Numbered(b: BlockId)
      reads cfg
    {
      b in cfg.visitOrder && cfg.visitOrder[b].order > 0 && cfg.visitOrder[b].order == Order(cfg.postOrder, b)
    }
  }
}
