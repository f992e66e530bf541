/** What DominatorBuilder computes, and what the choice of dominator guarantees. */
module CommonDominator {
  import opened Blocks
  import opened Paths
  import opened Traversal
  import opened TraversalInvariant
  import opened TraversalResults
  import opened DominatorTree
  import opened Reducible

  /** The chosen dominator after one more block; 0 stands for none. */
  ghost function AddStep(t: Tree, dominator: BlockId, block: BlockId): BlockId
    requires t.Rising() && (dominator != 0 ==> dominator in t.idom)
  {
    if block !in t.idom then dominator
    else if dominator == 0 then block
    else if block != dominator then t.Meet(block, dominator)
    else dominator
  }

  /** The chosen dominator after the first n of the given blocks. */
  ghost function AddAll(t: Tree, blocks: seq<BlockId>, n: nat): (d: BlockId)
    requires t.Rising() && n <= |blocks|
    ensures d != 0 ==> d in t.idom
  {
    if n == 0 then 0 else AddStep(t, AddAll(t, blocks, n - 1), blocks[n - 1])
  }

  /** The blocks among the first n that are in the tree. */
  ghost function Added(t: Tree, blocks: seq<BlockId>, n: nat): set<BlockId>
    requires n <= |blocks|
  {
    set i | 0 <= i < n && blocks[i] in t.idom :: blocks[i]
  }

  /** d is the nearest common ancestor of the given blocks, or 0 if there are none. */
  ghost predicate Nearest(t: Tree, given: set<BlockId>, d: BlockId)
    requires t.Rising() && forall a :: a in given ==> a in t.idom
  {
    && (d == 0 <==> given == {})
    && (given != {} ==> d in t.idom && forall x :: x in t.Chain(d) <==> forall a :: a in given ==> x in t.Chain(a))
  }

  lemma NearestUnique(t: Tree, given: set<BlockId>, d: BlockId, e: BlockId)
    requires t.Rising() && (forall a :: a in given ==> a in t.idom) && Nearest(t, given, d) && Nearest(t, given, e)
    ensures d == e
  {
    if given != {} {
      assert t.Chain(d) == t.Chain(e);
      ChainInjective(t, d, e);
    }
  }

  lemma NearestStep(t: Tree, given: set<BlockId>, d: BlockId, b: BlockId)
    requires t.Rising() && (forall a :: a in given ==> a in t.idom) && Nearest(t, given, d) && b in t.idom
    ensures Nearest(t, given + {b}, AddStep(t, d, b))
  {
    var e := AddStep(t, d, b);
    if d == 0 {
      assert given + {b} == {b};
      forall x ensures x in t.Chain(e) <==> forall a :: a in {b} ==> x in t.Chain(a) {}
    } else {
      assert t.Chain(e) == t.Chain(b) * t.Chain(d) by {
        if b == d { assert t.Chain(b) * t.Chain(d) == t.Chain(d); } else { MeetChain(t, b, d); }
      }
      forall x ensures x in t.Chain(e) <==> forall a :: a in given + {b} ==> a in t.idom && x in t.Chain(a) {
        assert x in t.Chain(e) <==> x in t.Chain(b) && x in t.Chain(d);
        assert x in t.Chain(d) <==> forall a :: a in given ==> x in t.Chain(a);
      }
    }
  }

  /** The builder chooses the nearest common dominator of the blocks added so far that are in the tree. */
  lemma {:induction false} BuilderIsNearest(t: Tree, blocks: seq<BlockId>, n: nat)
    requires t.Rising() && n <= |blocks|
    ensures Nearest(t, Added(t, blocks, n), AddAll(t, blocks, n))
  {
    if n > 0 {
      var b := blocks[n - 1];
      BuilderIsNearest(t, blocks, n - 1);
      if b in t.idom {
        NearestStep(t, Added(t, blocks, n - 1), AddAll(t, blocks, n - 1), b);
        assert Added(t, blocks, n) == Added(t, blocks, n - 1) + {b};
      } else {
        assert Added(t, blocks, n) == Added(t, blocks, n - 1);
      }
    }
  }

  /** Order, repetition and unreachable blocks make no difference. */
  lemma BuilderIgnoresOrder(t: Tree, first: seq<BlockId>, second: seq<BlockId>)
    requires t.Rising() && Added(t, first, |first|) == Added(t, second, |second|)
    ensures AddAll(t, first, |first|) == AddAll(t, second, |second|)
  {
    BuilderIsNearest(t, first, |first|);
    BuilderIsNearest(t, second, |second|);
    NearestUnique(t, Added(t, first, |first|), AddAll(t, first, |first|), AddAll(t, second, |second|));
  }

  lemma ChainIsDom(f: Func, x: BlockId, b: BlockId)
    requires f.WellFormed() && b in Final(f).postOrder
    ensures IsDominatorTree(f, Dominators(f)) && b in Dominators(f).idom
    ensures x in Dominators(f).Chain(b) <==> Dom(f, x, b)
  {
    OnePassSuffices(f);
    assert Exact(Recorded(Final(f)), Dominators(f), b);
  }

  /** In terms of paths: the choice is 0 exactly if no block is visited, and otherwise has all their dominators in common. */
  lemma BuilderDominates(f: Func, blocks: seq<BlockId>, x: BlockId)
    requires f.WellFormed()
    ensures Dominators(f).Rising()
    ensures var d := AddAll(Dominators(f), blocks, |blocks|);
            && (d == 0 <==> forall b :: b in blocks ==> b !in Final(f).postOrder)
            && (d != 0 ==> d in Final(f).postOrder)
            && (d != 0 ==> (Dom(f, x, d) <==> forall b :: b in blocks && b in Final(f).postOrder ==> Dom(f, x, b)))
  {
    OnePassSuffices(f);
    var t := Dominators(f);
    var given := Added(t, blocks, |blocks|);
    var d := AddAll(t, blocks, |blocks|);
    BuilderIsNearest(t, blocks, |blocks|);
    forall b ensures b in given <==> b in blocks && b in Final(f).postOrder {
      if b in blocks && b in t.idom {
        var i :| 0 <= i < |blocks| && blocks[i] == b;
        assert blocks[i] in given;
      }
    }
    if d != 0 {
      ChainIsDom(f, x, d);
      forall b | b in given ensures x in t.Chain(b) <==> Dom(f, x, b) {
        ChainIsDom(f, x, b);
      }
    }
  }

  /** In reducible flow, the choice lies on every execution path from the entry to each block added, loops included. */
  lemma ChoiceOnEveryExecution(f: Func, blocks: seq<BlockId>, b: BlockId, p: seq<BlockId>)
    requires f.WellFormed() && IsReducible(f) && b in blocks && Joins(Execution(f), f.entry, b, p)
    ensures Dominators(f).Rising()
    ensures AddAll(Dominators(f), blocks, |blocks|) in p
  {
    forall i | 0 <= i < |p| - 1 ensures (p[i], p[i + 1]) in Flow(f) {
      assert (p[i], p[i + 1]) in Execution(f);
    }
    FlowPathVisited(f, b, p);
    OnePassSuffices(f);
    var d := AddAll(Dominators(f), blocks, |blocks|);
    BuilderDominates(f, blocks, d);
    ChainIsDom(f, d, d);
    OnEveryExecution(f, d, b, p);
  }

  /** Already while the tree is being built, the meet of two finished blocks is their nearest common dominator. */
  lemma MeetExactMidBuild(st: State, root: BlockId, n: nat, a: BlockId, b: BlockId, x: BlockId)
    requires Layered(st, root) && n <= |st.postOrder|
    ensures PassTree(st, root, n).Rising()
    ensures a in PassTree(st, root, n).idom && b in PassTree(st, root, n).idom ==>
              (Dominates(Recorded(st), root, x, PassTree(st, root, n).Meet(a, b)) <==>
               Dominates(Recorded(st), root, x, a) && Dominates(Recorded(st), root, x, b))
  {
    PassBuilds(st, root, n);
    var t := PassTree(st, root, n);
    if a in t.idom && b in t.idom {
      MeetChain(t, a, b);
      var d := t.Meet(a, b);
      assert Exact(Recorded(st), t, a) && Exact(Recorded(st), t, b) && Exact(Recorded(st), t, d);
      assert x in t.Chain(d) <==> x in t.Chain(a) && x in t.Chain(b);
    }
  }

  // ---------- hoisting ----------

  /** Is h, as a loop or selection header, one that declares m as its merge block? */
  predicate Declares(f: Func, h: BlockId, m: BlockId) {
    && h in f.blocks
    && ((f.blocks[h].merge.MergeLoop? && f.blocks[h].mergeBlock == m)
        || (f.blocks[h].merge.MergeSelection? && f.blocks[h].nextBlock == m))
  }

  lemma MergeEdgeRecorded(f: Func, h: BlockId, m: BlockId)
    requires f.WellFormed() && Declares(f, h, m) && Below(Final(f).postOrder, m, h)
    ensures (h, m) in Recorded(Final(f)) && m != f.entry
  {
    assert f.blocks[h].Children()[0] == m;
    assert (h, m) in Flow(f);
    EdgeClassification(f, h, m);
    FinalInv(f);
    LastIsHighest(Final(f).postOrder, f.entry, h);
  }

  /** The immediate dominator of a merge block is its header or dominates it. */
  lemma MergeHoistsToHeader(f: Func, h: BlockId, m: BlockId)
    requires f.WellFormed() && Declares(f, h, m) && Below(Final(f).postOrder, m, h)
    ensures m in Dominators(f).idom && Dom(f, Dominators(f).idom[m], h)
  {
    var t := Dominators(f);
    OnePassSuffices(f);
    MergeEdgeRecorded(f, h, m);
    assert t.ParentOk(m);
    ImmediateDominatorIsClosest(f, t, m, t.idom[m]);
    DominatesStep(Recorded(Final(f)), f.entry, t.idom[m], m);
  }

  /**
    A value used in the merge block and in some block that the merge block does not dominate is declared in the header
    or in a block dominating the header, never strictly inside the construct.
   */
  lemma NeverInsideConstruct(f: Func, h: BlockId, m: BlockId, blocks: seq<BlockId>, x: BlockId)
    requires f.WellFormed() && Declares(f, h, m) && Below(Final(f).postOrder, m, h)
    requires m in blocks && x in blocks && x in Final(f).postOrder && !Dom(f, m, x)
    ensures Dominators(f).Rising()
    ensures AddAll(Dominators(f), blocks, |blocks|) != 0 && Dom(f, AddAll(Dominators(f), blocks, |blocks|), h)
  {
    OnePassSuffices(f);
    var d := AddAll(Dominators(f), blocks, |blocks|);
    BuilderDominates(f, blocks, d);
    assert d != 0;
    ChainIsDom(f, d, d);
    assert Dom(f, d, m) && Dom(f, d, x);
    MergeEdgeRecorded(f, h, m);
    DominatesStep(Recorded(Final(f)), f.entry, d, m);
  }

  // ---------- lifting out of continue blocks ----------

  /** Does the terminator of d lead to a block with a larger number? */
  ghost predicate LeadsBack(f: Func, po: seq<BlockId>, d: BlockId)
    requires d in f.blocks
  {
    exists v :: v in f.blocks[d].Targets() && Below(po, d, v)
  }

  /** The dominator after lifting: the entry instead of a block that branches back. */
  ghost function Lifted(f: Func, po: seq<BlockId>, d: BlockId): BlockId
    requires d != 0 ==> d in f.blocks
  {
    if d != 0 && LeadsBack(f, po, d) then f.entry else d
  }

  /** Lifting keeps what the builder guarantees, leaves no branch back, and is done after one call. */
  lemma LiftKeepsDominating(f: Func, blocks: seq<BlockId>)
    requires f.WellFormed()
    ensures Dominators(f).Rising()
    ensures var d := AddAll(Dominators(f), blocks, |blocks|);
            && (d != 0 ==> d in f.blocks)
            && var e := Lifted(f, Final(f).postOrder, d);
               && (e == 0 <==> d == 0)
               && (e != 0 ==> e in f.blocks && !LeadsBack(f, Final(f).postOrder, e))
               && (forall b :: e != 0 && b in blocks && b in Final(f).postOrder ==> Dom(f, e, b))
               && Lifted(f, Final(f).postOrder, e) == e
  {
    OnePassSuffices(f);
    FinalInv(f);
    var d := AddAll(Dominators(f), blocks, |blocks|);
    BuilderDominates(f, blocks, d);
    var e := Lifted(f, Final(f).postOrder, d);
    if d != 0 {
      ChainIsDom(f, d, d);
      EntryLeadsNowhereBack(f);
      forall b | b in blocks && b in Final(f).postOrder ensures Dom(f, e, b) {
        EntryDominates(f, b);
      }
    }
  }

  /**
    Lifting moves the choice only when it must: a choice d without a target of larger number stays, and thus has exactly
    the dominators that the added blocks have in common; any other choice becomes the entry.
   */
  lemma LiftOnlyIfNeeded(f: Func, blocks: seq<BlockId>, x: BlockId)
    requires f.WellFormed()
    ensures Dominators(f).Rising()
    ensures var po, d := Final(f).postOrder, AddAll(Dominators(f), blocks, |blocks|);
            d != 0 ==>
              && d in f.blocks
              && ((forall v :: v in f.blocks[d].Targets() ==> !Below(po, d, v)) ==>
                    && Lifted(f, po, d) == d
                    && (Dom(f, x, Lifted(f, po, d)) <==> forall b :: b in blocks && b in po ==> Dom(f, x, b)))
              && ((exists v :: v in f.blocks[d].Targets() && Below(po, d, v)) ==> Lifted(f, po, d) == f.entry)
  {
    FinalInv(f);
    BuilderDominates(f, blocks, x);
  }

  lemma EntryLeadsNowhereBack(f: Func)
    requires f.WellFormed()
    ensures f.entry in f.blocks && !LeadsBack(f, Final(f).postOrder, f.entry)
  {
    FinalInv(f);
    forall v ensures !Below(Final(f).postOrder, f.entry, v) {
      LastIsHighest(Final(f).postOrder, f.entry, v);
    }
  }

  lemma EntryDominates(f: Func, b: BlockId)
    requires f.WellFormed()
    ensures Dom(f, f.entry, b)
  {
    forall p | Joins(Recorded(Final(f)), f.entry, b, p) ensures f.entry in p {
      assert p[0] in p;
    }
  }

  lemma LeadsBackByIndex(f: Func, po: seq<BlockId>, d: BlockId)
    requires d in f.blocks
    ensures var targets := f.blocks[d].Targets();
            LeadsBack(f, po, d) <==> exists i :: 0 <= i < |targets| && Below(po, d, targets[i])
  {
  }

  /** The targets of a visited block are visited, so that their numbers can be looked up. */
  lemma TargetsNumbered(f: Func, d: BlockId)
    requires f.WellFormed() && d in Final(f).postOrder && d in f.blocks
    ensures forall v :: v in f.blocks[d].Targets() ==> v in Final(f).postOrder
  {
    forall v | v in f.blocks[d].Targets() ensures v in Final(f).postOrder {
      assert v in f.blocks[d].Children();
      EdgeClassification(f, d, v);
    }
  }
}
