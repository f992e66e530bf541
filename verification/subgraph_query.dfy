/** Does reaching one block mean that control has passed through another, with no branch in between that matters? */
module SubgraphQuery {
  import opened Blocks
  import opened Paths
  import opened Traversal
  import opened TraversalInvariant
  import opened TraversalResults
  import opened DominatorTree
  import opened Reducible
  import opened CommonDominator
  import opened VisitTables

  /** The answers of the compiler to "is execution from the first block to the second branchless?" may be any. */
  type Oracle = (BlockId, BlockId) -> bool

  /** Nothing is executed after the construct of dom: it has no merge block, or one that is declared unreachable. */
  predicate MergesToNothing(f: Func, dom: Block) {
    || dom.merge.MergeNone?
    || (dom.merge.MergeSelection? && dom.nextBlock in f.blocks && f.blocks[dom.nextBlock].terminator.Unreachable?)
    || (dom.merge.MergeLoop? && dom.mergeBlock in f.blocks && f.blocks[dom.mergeBlock].terminator.Unreachable?)
  }

  /** The merge block of from, if from is a loop header, and 0 otherwise. */
  function IgnoredBlock(f: Func, from: BlockId): BlockId
    requires from in f.blocks
  {
    if f.blocks[from].merge.MergeLoop? then f.blocks[from].mergeBlock else 0
  }

  /** May the side of the branch in dom that starts with block be ignored? */
  predicate PathIgnored(f: Func, branchless: Oracle, from: BlockId, dom: Block, block: BlockId)
    requires from in f.blocks
  {
    && (dom.self == from || MergesToNothing(f, dom))
    && IgnoredBlock(f, from) != 0 && dom.terminator.Select?
    && branchless(block, IgnoredBlock(f, from))
  }

  /** May the walk go from to up to dom? */
  predicate MayGoUp(f: Func, branchless: Oracle, from: BlockId, dom: Block, to: BlockId)
    requires from in f.blocks
  {
    || (dom.merge.MergeSelection? && dom.nextBlock == to)
    || (dom.merge.MergeLoop? && dom.mergeBlock == to)
    || (dom.terminator.Direct? && dom.nextBlock == to)
    || (dom.terminator.Select? && dom.trueBlock == to && PathIgnored(f, branchless, from, dom, dom.falseBlock))
    || (dom.terminator.Select? && dom.falseBlock == to && PathIgnored(f, branchless, from, dom, dom.trueBlock))
  }

  /** The common dominator of the real predecessors of a block, 0 if it has none. */
  ghost function PredDominator(f: Func, to: BlockId): BlockId
    requires f.WellFormed() && Dominators(f).Rising()
  {
    var ps := EdgesOf(Final(f).pred, to);
    AddAll(Dominators(f), ps, |ps|)
  }

  lemma PredDominatorAbove(f: Func, to: BlockId)
    requires f.WellFormed()
    ensures Dominators(f).Rising()
    ensures PredDominator(f, to) != 0 ==>
              && PredDominator(f, to) in f.blocks
              && Below(Final(f).postOrder, to, PredDominator(f, to))
    ensures PredDominator(f, to) != 0 ==> Dominates(Real(Final(f)), f.entry, PredDominator(f, to), to)
  {
    OnePassSuffices(f);
    FinalInv(f);
    var ps, d := EdgesOf(Final(f).pred, to), PredDominator(f, to);
    BuilderDominates(f, ps, d);
    if d != 0 {
      ChainIsDom(f, d, d);
      forall p | p in ps ensures Below(Final(f).postOrder, to, p) && Dom(f, d, p) {
        EdgeClassification(f, p, to);
        assert (p, to) in Recorded(Final(f));
      }
      var p :| p in ps && p in Final(f).postOrder;
      ChainIsDom(f, d, p);
      OnAllRealPaths(f, d, to);
    }
  }

  lemma OnAllRealPaths(f: Func, d: BlockId, to: BlockId)
    requires f.WellFormed() && EdgesOf(Final(f).pred, to) != []
    requires forall p :: p in EdgesOf(Final(f).pred, to) ==> Dom(f, d, p)
    ensures Dominates(Real(Final(f)), f.entry, d, to)
  {
    EntryIsLast(f);
    forall u | (u, to) in Real(Final(f)) ensures Dominates(Real(Final(f)), f.entry, d, u) {
      DominatesInSubgraph(Recorded(Final(f)), Real(Final(f)), f.entry, d, u);
    }
    DominatesStep(Real(Final(f)), f.entry, d, to);
  }

  /** What node_terminates_control_flow_in_sub_graph computes. */
  ghost function Terminates(f: Func, branchless: Oracle, from: BlockId, to: BlockId): bool
    requires f.WellFormed() && from in f.blocks
    decreases |Final(f).postOrder| - Order(Final(f).postOrder, to)
  {
    PredDominatorAbove(f, to);
    var dominator := PredDominator(f, to);
    || to == from
    || (dominator != 0 && MayGoUp(f, branchless, from, f.blocks[dominator], to)
        && Terminates(f, branchless, from, dominator))
  }

  /** Whatever the oracle answers: if the query says yes, from lies on every real path from the entry to to. */
  lemma {:induction false} TerminatesIsSound(f: Func, branchless: Oracle, from: BlockId, to: BlockId)
    requires f.WellFormed() && from in f.blocks && Terminates(f, branchless, from, to)
    ensures Dominates(Real(Final(f)), f.entry, from, to)
    decreases |Final(f).postOrder| - Order(Final(f).postOrder, to)
  {
    if to == from {
      forall p | Joins(Real(Final(f)), f.entry, to, p) ensures from in p {}
    } else {
      PredDominatorAbove(f, to);
      TerminatesIsSound(f, branchless, from, PredDominator(f, to));
      DominatesTransitive(Real(Final(f)), f.entry, from, PredDominator(f, to), to);
    }
  }

  // ---------- when the answer is yes ----------

  /** d is the nearest common dominator of the real predecessors of to, of which there is at least one. */
  ghost predicate NearestOfPreds(f: Func, to: BlockId, d: BlockId)
    requires f.WellFormed()
  {
    && (exists p :: (p, to) in Real(Final(f)))
    && d in Final(f).postOrder
    && (forall x :: Dom(f, x, d) <==> forall p :: (p, to) in Real(Final(f)) ==> Dom(f, x, p))
  }

  lemma RealPreds(f: Func, to: BlockId)
    requires f.WellFormed()
    ensures forall p :: (p, to) in Real(Final(f)) <==> p in EdgesOf(Final(f).pred, to)
    ensures forall p :: (p, to) in Real(Final(f)) ==> p in Final(f).postOrder
  {
    forall p | (p, to) in Real(Final(f)) ensures p in Final(f).postOrder {
      assert (p, to) in Recorded(Final(f));
      EdgeClassification(f, p, to);
    }
  }

  lemma SameDominators(f: Func, d: BlockId, e: BlockId)
    requires f.WellFormed() && d in Final(f).postOrder && e in Final(f).postOrder
    requires forall x :: Dom(f, x, d) <==> Dom(f, x, e)
    ensures d == e
  {
    var t := Dominators(f);
    ChainIsDom(f, d, d);
    ChainIsDom(f, e, e);
    forall x ensures x in t.Chain(d) <==> x in t.Chain(e) {
      ChainIsDom(f, x, d);
      ChainIsDom(f, x, e);
    }
    ChainInjective(t, d, e);
  }

  /** The builder finds that dominator. */
  lemma PredDominatorIs(f: Func, to: BlockId, d: BlockId)
    requires f.WellFormed() && NearestOfPreds(f, to, d)
    ensures Dominators(f).Rising() && PredDominator(f, to) == d != 0
    ensures d in f.blocks && Below(Final(f).postOrder, to, d)
  {
    PredDominatorAbove(f, to);
    RealPreds(f, to);
    var ps, e := EdgesOf(Final(f).pred, to), PredDominator(f, to);
    BuilderDominates(f, ps, e);
    forall x ensures Dom(f, x, d) <==> Dom(f, x, e) {
      BuilderDominates(f, ps, x);
    }
    SameDominators(f, d, e);
  }

  /** Whenever there is a predecessor, there is such a dominator. */
  lemma PredsHaveNearest(f: Func, p: BlockId, to: BlockId)
    requires f.WellFormed() && (p, to) in Real(Final(f))
    ensures Dominators(f).Rising() && NearestOfPreds(f, to, PredDominator(f, to))
  {
    RealPreds(f, to);
    PredDominatorAbove(f, to);
    var ps, d := EdgesOf(Final(f).pred, to), PredDominator(f, to);
    BuilderDominates(f, ps, d);
    assert p in ps && d != 0;
    forall x ensures Dom(f, x, d) <==> forall q :: (q, to) in Real(Final(f)) ==> Dom(f, x, q) {
      BuilderDominates(f, ps, x);
    }
  }

  /** The two sides of the conditional branch in d are to and other, in either order. */
  predicate Sides(f: Func, d: BlockId, to: BlockId, other: BlockId)
    requires d in f.blocks
  {
    && f.blocks[d].terminator.Select?
    && ((f.blocks[d].trueBlock == to && f.blocks[d].falseBlock == other)
        || (f.blocks[d].trueBlock == other && f.blocks[d].falseBlock == to))
  }

  /** One side of the branch in the header from itself: yes exactly if the other side runs straight out of the loop of from. */
  lemma SideOfHeader(f: Func, branchless: Oracle, from: BlockId, to: BlockId, other: BlockId)
    requires f.WellFormed() && from in f.blocks && NearestOfPreds(f, to, from)
    requires Sides(f, from, to, other) && !Declares(f, from, to)
    ensures Terminates(f, branchless, from, to) <==>
              f.blocks[from].merge.MergeLoop? && branchless(other, f.blocks[from].mergeBlock)
  {
    PredDominatorIs(f, to, from);
    ChildrenNotZero(f, from);
    assert Terminates(f, branchless, from, from);
  }

  /**
    One side of a branch in another block d: the answer is that for d, if the other side runs straight out of the loop
    of from, and nothing is executed after the construct of d; and no otherwise.
   */
  lemma SideOfInnerBlock(f: Func, branchless: Oracle, from: BlockId, d: BlockId, to: BlockId, other: BlockId)
    requires f.WellFormed() && from in f.blocks && to != from && NearestOfPreds(f, to, d) && d != from && d in f.blocks
    requires Sides(f, d, to, other) && !Declares(f, d, to)
    ensures Terminates(f, branchless, from, to) <==>
              && f.blocks[from].merge.MergeLoop? && branchless(other, f.blocks[from].mergeBlock)
              && (forall m :: Declares(f, d, m) ==> m in f.blocks && f.blocks[m].terminator.Unreachable?)
              && Terminates(f, branchless, from, d)
  {
    PredDominatorIs(f, to, d);
    ChildrenNotZero(f, from);
    ChildrenNotZero(f, d);
    var block := f.blocks[d];
    assert block.merge.MergeLoop? ==> Declares(f, d, block.mergeBlock);
    assert block.merge.MergeSelection? ==> Declares(f, d, block.nextBlock);
  }

  /** From a merge block, or the target of a direct branch, the answer is that for the header, or the source of the branch. */
  lemma MergeOrDirectTarget(f: Func, branchless: Oracle, from: BlockId, d: BlockId, to: BlockId)
    requires f.WellFormed() && from in f.blocks && to != from && NearestOfPreds(f, to, d) && d in f.blocks
    requires Declares(f, d, to) || (f.blocks[d].terminator.Direct? && f.blocks[d].nextBlock == to)
    ensures Terminates(f, branchless, from, to) <==> Terminates(f, branchless, from, d)
  {
    PredDominatorIs(f, to, d);
  }

  /** No for a block that is in another relation to the common dominator d of its predecessors, such as a case of a switch. */
  lemma OtherRelation(f: Func, branchless: Oracle, from: BlockId, d: BlockId, to: BlockId)
    requires f.WellFormed() && from in f.blocks && to != from && NearestOfPreds(f, to, d) && d in f.blocks
    requires !Declares(f, d, to) && (f.blocks[d].terminator.MultiSelect? || to !in f.blocks[d].Targets())
    ensures !Terminates(f, branchless, from, to)
  {
    PredDominatorIs(f, to, d);
  }

  /** Yes for the block itself, no for any other block without real predecessors. */
  lemma NoPredecessors(f: Func, branchless: Oracle, from: BlockId, to: BlockId)
    requires f.WellFormed() && from in f.blocks && forall p :: (p, to) !in Real(Final(f))
    ensures Terminates(f, branchless, from, to) <==> to == from
  {
    RealPreds(f, to);
    EmptyOrHasMember(EdgesOf(Final(f).pred, to));
  }

  /** What can be said of a single answer, without knowing others. */
  lemma AnswerLaws(f: Func, branchless: Oracle, from: BlockId, to: BlockId, answer: bool)
    requires f.WellFormed() && from in f.blocks && answer == Terminates(f, branchless, from, to)
    ensures to == from ==> answer
    ensures answer ==> Dominates(Real(Final(f)), f.entry, from, to)
    ensures forall other :: NearestOfPreds(f, to, from) && Sides(f, from, to, other) && !Declares(f, from, to) ==>
              (answer <==> f.blocks[from].merge.MergeLoop? && branchless(other, f.blocks[from].mergeBlock))
  {
    if answer { TerminatesIsSound(f, branchless, from, to); }
    forall other | NearestOfPreds(f, to, from) && Sides(f, from, to, other) && !Declares(f, from, to)
      ensures answer <==> f.blocks[from].merge.MergeLoop? && branchless(other, f.blocks[from].mergeBlock)
    {
      SideOfHeader(f, branchless, from, to, other);
    }
  }
}
