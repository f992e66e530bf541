/** The innermost loop around a block, found by walking up predecessor edges. */
module LoopQuery {
  import opened Blocks
  import opened Paths
  import opened Traversal
  import opened TraversalInvariant
  import opened TraversalResults
  import opened DominatorTree
  import opened Reducible
  import opened CommonDominator
  import opened EdgeOrder

  /** The position of the first header of b among the first n of ps, or n. */
  function FirstHeader(f: Func, ps: seq<BlockId>, b: BlockId, n: nat): (k: nat)
    requires n <= |ps|
    ensures k <= n && (k < n ==> Declares(f, ps[k], b)) && (forall i :: 0 <= i < k ==> !Declares(f, ps[i], b))
  {
    if n == 0 then 0
    else
      var k := FirstHeader(f, ps, b, n - 1);
      if k < n - 1 || Declares(f, ps[n - 1], b) then k else n
  }

  lemma FirstHeaderFound(f: Func, ps: seq<BlockId>, b: BlockId, k: nat)
    requires k <= |ps| && (k < |ps| ==> Declares(f, ps[k], b)) && forall i :: 0 <= i < k ==> !Declares(f, ps[i], b)
    ensures FirstHeader(f, ps, b, |ps|) == k
  {
  }

  /** The predecessor to go to from a block with real predecessors ps: its header if one is among them, else the first. */
  function Upwards(f: Func, ps: seq<BlockId>, b: BlockId): (p: BlockId)
    requires ps != []
    ensures p in ps
  {
    var k := FirstHeader(f, ps, b, |ps|);
    if k < |ps| then ps[k] else ps[0]
  }

  /** Does going up from b to p enter a loop at its header p? Not when b is what follows that loop. */
  predicate EntersLoop(f: Func, b: BlockId, p: BlockId) {
    p in f.blocks && f.blocks[p].merge.MergeLoop? && f.blocks[p].mergeBlock != b
  }

  /** What find_loop_dominator computes. */
  ghost function LoopDominator(f: Func, st: State, root: BlockId, b: BlockId): BlockId
    requires Layered(st, root)
    decreases |st.postOrder| - Order(st.postOrder, b)
  {
    var ps := EdgesOf(st.pred, b);
    if ps == [] then NO_DOMINATOR
    else
      var p := Upwards(f, ps, b);
      assert (p, b) in Recorded(st);
      if EntersLoop(f, b, p) then p else LoopDominator(f, st, root, p)
  }

  // ---------- loops as sets of blocks ----------

  ghost predicate IsLoop(f: Func, h: BlockId)
    requires f.WellFormed()
  {
    h in Final(f).postOrder && h in f.blocks && f.blocks[h].merge.MergeLoop?
  }

  /** b belongs to the loop of h: dominated by the header, but not by the merge block. */
  ghost predicate InLoop(f: Func, h: BlockId, b: BlockId)
    requires f.WellFormed()
  {
    && IsLoop(f, h) && b in Final(f).postOrder
    && Dom(f, h, b) && !Dom(f, f.blocks[h].mergeBlock, b)
  }

  ghost predicate Encloses(f: Func, h: BlockId, b: BlockId)
    requires f.WellFormed()
  {
    InLoop(f, h, b) && h != b
  }

  /**
    Structured control flow: no two headers share a merge block, merge blocks of loops are numbered below their headers,
    no real edge runs from behind the merge block back into the loop, and real edges leave a loop only to its merge block.
   */
  ghost predicate Structured(f: Func)
    requires f.WellFormed()
  {
    && (forall h: BlockId, k: BlockId, m: BlockId ::
         h in Final(f).postOrder && k in Final(f).postOrder && Declares(f, h, m) && Declares(f, k, m) ==> h == k)
    && (forall h :: IsLoop(f, h) ==> Below(Final(f).postOrder, f.blocks[h].mergeBlock, h))
    && (forall h: BlockId, u: BlockId, v: BlockId :: Encloses(f, h, v) && (u, v) in Real(Final(f)) ==> !Dom(f, f.blocks[h].mergeBlock, u))
    && (forall h: BlockId, u: BlockId, v: BlockId :: InLoop(f, h, u) && (u, v) in Real(Final(f)) ==>
         InLoop(f, h, v) || v == f.blocks[h].mergeBlock)
  }

  lemma RealEdge(f: Func, p: BlockId, b: BlockId)
    requires f.WellFormed() && p in EdgesOf(Final(f).pred, b)
    ensures (p, b) in Real(Final(f)) && (p, b) in Recorded(Final(f)) && Below(Final(f).postOrder, b, p) && p != b
    ensures p in f.blocks
  {
    EdgeClassification(f, p, b);
  }

  lemma DomIsBelow(f: Func, h: BlockId, b: BlockId)
    requires f.WellFormed() && b in Final(f).postOrder && Dom(f, h, b)
    ensures h == b || Below(Final(f).postOrder, b, h)
  {
    ChainIsDom(f, h, b);
  }

  /** Real edges enter a loop only at its header. */
  lemma EnteredAtHeader(f: Func, h: BlockId, b: BlockId, p: BlockId)
    requires f.WellFormed() && Structured(f) && p in EdgesOf(Final(f).pred, b) && Encloses(f, h, b)
    ensures InLoop(f, h, p)
  {
    RealEdge(f, p, b);
    if b == f.entry {
      DominatesRoot(Recorded(Final(f)), f.entry, h);
    } else {
      DominatesStep(Recorded(Final(f)), f.entry, h, b);
    }
  }

  /** Going up an edge without crossing the header h stays inside, or outside, the loop of h. */
  lemma SameLoop(f: Func, h: BlockId, b: BlockId, p: BlockId)
    requires f.WellFormed() && Structured(f) && p in EdgesOf(Final(f).pred, b)
    requires IsLoop(f, h) ==> f.blocks[h].mergeBlock != b || h == p
    requires !EntersLoop(f, b, p)
    ensures Encloses(f, h, b) <==> Encloses(f, h, p)
  {
    RealEdge(f, p, b);
    SelfDominates(f, b);
    if Encloses(f, h, b) {
      EnteredAtHeader(f, h, b, p);
    }
    if Encloses(f, h, p) {
      assert InLoop(f, h, b);
      DomIsBelow(f, h, p);
    }
  }

  lemma SelfDominates(f: Func, b: BlockId)
    requires f.WellFormed()
    ensures Dom(f, b, b)
  {
    forall p | Joins(Recorded(Final(f)), f.entry, b, p) ensures b in p {}
  }

  /** Only one loop header can have b as its merge block, and if so the walk goes to it. */
  lemma UpwardsToHeader(f: Func, b: BlockId, p: BlockId, h: BlockId)
    requires f.WellFormed() && Structured(f) && EdgesOf(Final(f).pred, b) != []
    requires p == Upwards(f, EdgesOf(Final(f).pred, b), b)
    requires IsLoop(f, h) && f.blocks[h].mergeBlock == b
    ensures h == p
  {
    var ps := EdgesOf(Final(f).pred, b);
    FinalInv(f);
    assert f.blocks[h].Branches(b);
    assert h in ps;
    var k := FirstHeader(f, ps, b, |ps|);
    assert Declares(f, h, b);
    assert k < |ps|;
    assert Declares(f, p, b);
    RealEdge(f, p, b);
  }

  /** A loop entered at its header is the innermost one around where the walk came from. */
  lemma EnteredIsInnermost(f: Func, b: BlockId, p: BlockId, h: BlockId)
    requires f.WellFormed() && Structured(f) && p in EdgesOf(Final(f).pred, b) && EntersLoop(f, b, p)
    ensures Encloses(f, p, b)
    ensures Encloses(f, h, b) ==> h == p || Below(Final(f).postOrder, p, h)
  {
    RealEdge(f, p, b);
    SelfDominates(f, p);
    if Dom(f, f.blocks[p].mergeBlock, p) {
      DomIsBelow(f, f.blocks[p].mergeBlock, p);
    }
    assert InLoop(f, p, p);
    if Encloses(f, h, b) {
      EnteredAtHeader(f, h, b, p);
      DomIsBelow(f, h, p);
    }
  }

  /** r is the lowest-numbered loop header that encloses b, or the sentinel when there is none. */
  ghost predicate IsInnermost(f: Func, b: BlockId, r: BlockId)
    requires f.WellFormed()
  {
    && (r != NO_DOMINATOR ==> Encloses(f, r, b))
    && (forall h :: Encloses(f, h, b) ==> r != NO_DOMINATOR && (h == r || Below(Final(f).postOrder, r, h)))
  }

  /** In structured control flow, the walk finds the innermost enclosing loop of every block. */
  lemma {:induction false} FindsInnermostLoop(f: Func, b: BlockId)
    requires f.WellFormed() && Structured(f)
    ensures Layered(Final(f), f.entry)
    ensures IsInnermost(f, b, LoopDominator(f, Final(f), f.entry, b))
    decreases |Final(f).postOrder| - Order(Final(f).postOrder, b)
  {
    FinalLayered(f);
    var ps := EdgesOf(Final(f).pred, b);
    if ps == [] {
      forall h ensures !Encloses(f, h, b) {
        NothingAroundEntry(f, h, b);
      }
    } else {
      var p := Upwards(f, ps, b);
      RealEdge(f, p, b);
      if EntersLoop(f, b, p) {
        HeaderIsNoSentinel(f, p);
        forall h ensures Encloses(f, p, b) && (Encloses(f, h, b) ==> h == p || Below(Final(f).postOrder, p, h)) {
          EnteredIsInnermost(f, b, p, h);
        }
      } else {
        FindsInnermostLoop(f, p);
        forall h ensures Encloses(f, h, b) <==> Encloses(f, h, p) {
          if IsLoop(f, h) && f.blocks[h].mergeBlock == b { UpwardsToHeader(f, b, p, h); }
          SameLoop(f, h, b, p);
        }
      }
    }
  }

  lemma HeaderIsNoSentinel(f: Func, p: BlockId)
    requires f.WellFormed() && p in f.blocks
    ensures p != NO_DOMINATOR
  {
  }

  lemma NothingAroundEntry(f: Func, h: BlockId, b: BlockId)
    requires f.WellFormed() && EdgesOf(Final(f).pred, b) == []
    ensures !Encloses(f, h, b)
  {
    if b in Final(f).postOrder && b != f.entry { EveryBlockHasPredecessor(f, b); }
    if b == f.entry { DominatesRoot(Recorded(Final(f)), f.entry, h); }
  }

  lemma SentinelHasNoLoop(f: Func)
    requires f.WellFormed() && Layered(Final(f), f.entry)
    ensures LoopDominator(f, Final(f), f.entry, NO_DOMINATOR) == NO_DOMINATOR
  {
    FinalInv(f);
    var ps := EdgesOf(Final(f).pred, NO_DOMINATOR);
    if ps != [] {
      RealEdge(f, ps[0], NO_DOMINATOR);
    }
  }

  lemma PredecessorsAreBlocks(f: Func, b: BlockId)
    requires f.WellFormed()
    ensures forall p :: p in EdgesOf(Final(f).pred, b) ==> p in f.blocks && p != NO_DOMINATOR && p != 0
  {
    forall p | p in EdgesOf(Final(f).pred, b) ensures p in f.blocks {
      RealEdge(f, p, b);
    }
  }

  /** One step of the walk. */
  lemma LoopDominatorStep(f: Func, b: BlockId, p: BlockId)
    requires f.WellFormed() && Layered(Final(f), f.entry) && EdgesOf(Final(f).pred, b) != []
    requires p == Upwards(f, EdgesOf(Final(f).pred, b), b)
    ensures p in f.blocks && p != NO_DOMINATOR && p != 0 && Below(Final(f).postOrder, b, p)
    ensures LoopDominator(f, Final(f), f.entry, b) ==
            if EntersLoop(f, b, p) then p else LoopDominator(f, Final(f), f.entry, p)
  {
    RealEdge(f, p, b);
  }

  /** In any flow, the answer is a visited loop header numbered above the block, or 0xffff_ffff; never 0. */
  lemma {:induction false} LoopDominatorRange(f: Func, b: BlockId, r: BlockId)
    requires f.WellFormed() && Layered(Final(f), f.entry) && r == LoopDominator(f, Final(f), f.entry, b)
    ensures r != 0
    ensures r == 0xffff_ffff || (IsLoop(f, r) && Below(Final(f).postOrder, b, r))
    decreases |Final(f).postOrder| - Order(Final(f).postOrder, b)
  {
    var ps := EdgesOf(Final(f).pred, b);
    if ps != [] {
      var p := Upwards(f, ps, b);
      RealEdge(f, p, b);
      if !EntersLoop(f, b, p) { LoopDominatorRange(f, p, r); }
    }
  }

  /** In any flow, the walk goes to the lowest-numbered header of b if one is a predecessor, else to the lowest predecessor. */
  lemma UpwardsIsLowest(f: Func, b: BlockId, q: BlockId)
    requires f.WellFormed() && q in EdgesOf(Final(f).pred, b)
    ensures var p := Upwards(f, EdgesOf(Final(f).pred, b), b);
            && (Declares(f, q, b) ==> Declares(f, p, b))
            && ((Declares(f, p, b) ==> Declares(f, q, b)) ==> q == p || Below(Final(f).postOrder, p, q))
  {
    var ps := EdgesOf(Final(f).pred, b);
    var k, j := FirstHeader(f, ps, b, |ps|), Order(ps, q) - 1;
    OrderIndex(ps, q);
    PredecessorsAscend(f, b, if k < |ps| then k else 0, j);
  }
}
