/** When it is sound to drop back edges before computing dominators. */
module Reducible {
  import opened Blocks
  import opened Paths
  import opened Traversal
  import opened TraversalInvariant
  import opened TraversalResults

  /** B: the flow edges of visited blocks that are dropped, because they do not lead to a lower number. */
  ghost predicate BackEdge(f: Func, u: BlockId, h: BlockId)
    requires f.WellFormed()
  {
    u in Final(f).postOrder && (u, h) in Flow(f) && !Below(Final(f).postOrder, h, u)
  }

  /** x dominates b over the recorded edges. */
  ghost predicate Dom(f: Func, x: BlockId, b: BlockId)
    requires f.WellFormed()
  {
    Dominates(Recorded(Final(f)), f.entry, x, b)
  }

  /** Whatever strictly dominates the target of a back edge also dominates its source. */
  ghost predicate BackEdgesHarmless(f: Func)
    requires f.WellFormed()
  {
    forall u, h, x :: BackEdge(f, u, h) && x != h && Dom(f, x, h) ==> Dom(f, x, u)
  }

  /** Every back edge returns to a block that dominates its source. */
  ghost predicate IsReducible(f: Func)
    requires f.WellFormed()
  {
    forall u, h :: BackEdge(f, u, h) ==> Dom(f, h, u)
  }

  lemma DominatesTransitive(g: Graph, root: BlockId, x: BlockId, b: BlockId, u: BlockId)
    requires Dominates(g, root, x, b) && Dominates(g, root, b, u)
    ensures Dominates(g, root, x, u)
  {
    forall p | Joins(g, root, u, p) ensures x in p {
      var i :| 0 <= i < |p| && p[i] == b;
      Prefix(g, p, i + 1);
      assert x in p[..i + 1];
    }
  }

  lemma ReducibleIsHarmless(f: Func)
    requires f.WellFormed() && IsReducible(f)
    ensures BackEdgesHarmless(f)
  {
    forall u, h, x | BackEdge(f, u, h) && x != h && Dom(f, x, h) ensures Dom(f, x, u) {
      DominatesTransitive(Recorded(Final(f)), f.entry, x, h, u);
    }
  }

  lemma RecordedInFlow(f: Func)
    requires f.WellFormed()
    ensures Recorded(Final(f)) <= Flow(f)
  {
    forall e | e in Recorded(Final(f)) ensures e in Flow(f) {
      EdgeClassification(f, e.0, e.1);
    }
  }

  /** The blocks on a flow path from the entry are visited. */
  lemma FlowPathVisited(f: Func, b: BlockId, p: seq<BlockId>)
    requires f.WellFormed() && Joins(Flow(f), f.entry, b, p)
    ensures b in Final(f).postOrder
  {
    Coverage(f);
    assert Reaches(Flow(f), f.entry, b);
  }

  /** Following a flow path backwards, a recorded dominator of its end is never lost. */
  lemma {:induction false} OnFlowPath(f: Func, x: BlockId, b: BlockId, p: seq<BlockId>)
    requires f.WellFormed() && BackEdgesHarmless(f) && Dom(f, x, b) && Joins(Flow(f), f.entry, b, p)
    ensures x in p
    decreases |p|
  {
    var n := |p| - 1;
    if b == f.entry {
      DominatesRoot(Recorded(Final(f)), f.entry, x);
    } else if x != b {
      var u := p[n - 1];
      assert (u, b) in Flow(f);
      Prefix(Flow(f), p, n);
      FlowPathVisited(f, u, p[..n]);
      EdgeClassification(f, u, b);
      DominatesStep(Recorded(Final(f)), f.entry, x, b);
      assert Dom(f, x, u) by {
        if !Below(Final(f).postOrder, b, u) { assert BackEdge(f, u, b); }
      }
      OnFlowPath(f, x, u, p[..n]);
      assert x in p[..n];
    }
  }

  /**
    Dropping back edges leaves all dominance relations intact exactly when no back edge bypasses a strict dominator of
    its target.
   */
  lemma DroppingBackEdges(f: Func)
    requires f.WellFormed()
    ensures BackEdgesHarmless(f) <==>
            forall x, b :: b in Final(f).postOrder ==> (Dom(f, x, b) <==> Dominates(Flow(f), f.entry, x, b))
  {
    RecordedInFlow(f);
    if BackEdgesHarmless(f) {
      forall x, b | b in Final(f).postOrder ensures Dom(f, x, b) <==> Dominates(Flow(f), f.entry, x, b) {
        HarmlessDominance(f, x, b);
      }
    }
    if forall x, b :: b in Final(f).postOrder ==> (Dom(f, x, b) <==> Dominates(Flow(f), f.entry, x, b)) {
      forall u, h, x | BackEdge(f, u, h) && x != h && Dom(f, x, h) ensures Dom(f, x, u) {
        EdgeClassification(f, u, h);
        assert Dominates(Flow(f), f.entry, x, h);
        BeforeBackEdge(f, u, h, x);
      }
    }
  }

  lemma HarmlessDominance(f: Func, x: BlockId, b: BlockId)
    requires f.WellFormed() && BackEdgesHarmless(f)
    ensures Dom(f, x, b) <==> Dominates(Flow(f), f.entry, x, b)
  {
    RecordedInFlow(f);
    if Dom(f, x, b) {
      forall p | Joins(Flow(f), f.entry, b, p) ensures x in p {
        OnFlowPath(f, x, b, p);
      }
    } else if Dominates(Flow(f), f.entry, x, b) {
      DominatesInSubgraph(Flow(f), Recorded(Final(f)), f.entry, x, b);
    }
  }

  lemma BeforeBackEdge(f: Func, u: BlockId, h: BlockId, x: BlockId)
    requires f.WellFormed() && BackEdge(f, u, h) && x != h && Dominates(Flow(f), f.entry, x, h)
    ensures Dom(f, x, u)
  {
    RecordedInFlow(f);
    forall p | Joins(Recorded(Final(f)), f.entry, u, p) ensures x in p {
      forall i | 0 <= i < |p| - 1 ensures (p[i], p[i + 1]) in Flow(f) {
        assert (p[i], p[i + 1]) in Recorded(Final(f));
      }
      assert Joins(Flow(f), f.entry, u, p);
      Extend(Flow(f), f.entry, u, p, h);
      assert x in p + [h];
    }
  }

  /** In reducible flow, a recorded dominator lies on every execution path, however often it runs through loops. */
  lemma OnEveryExecution(f: Func, x: BlockId, b: BlockId, p: seq<BlockId>)
    requires f.WellFormed() && IsReducible(f) && Dom(f, x, b) && Joins(Execution(f), f.entry, b, p)
    ensures x in p
  {
    ReducibleIsHarmless(f);
    forall i | 0 <= i < |p| - 1 ensures (p[i], p[i + 1]) in Flow(f) {
      assert (p[i], p[i + 1]) in Execution(f);
    }
    OnFlowPath(f, x, b, p);
  }
}
