/** A function whose back edge bypasses a dominator: without reducible flow, dropping back edges is not sound. */
module IrreducibleExample {
  import opened Blocks
  import opened Paths
  import opened Traversal
  import opened TraversalInvariant
  import opened TraversalResults
  import opened Reducible

  function Jump(self: BlockId, next: BlockId): Block {
    Block(self, MergeNone, 0, next, Direct, 0, 0, 0, [])
  }

  /** Block 1 branches to 2 and 4; from there on 2 -> 3 -> 4 -> 3. */
  function Bypass(): Func {
    Func(1, map[
      1 := Block(1, MergeNone, 0, 0, Select, 2, 4, 0, []),
      2 := Jump(2, 3),
      3 := Jump(3, 4),
      4 := Jump(4, 3)])
  }

  lemma BypassChildren()
    ensures Bypass().WellFormed()
    ensures Bypass().blocks[1].Children() == [2, 4] && Bypass().blocks[2].Children() == [3]
    ensures Bypass().blocks[3].Children() == [4] && Bypass().blocks[4].Children() == [3]
  {
  }

  /** Searching from a block with a single child that is visited already. */
  lemma SearchLeaf(f: Func, st: State, b: BlockId, c: BlockId)
    requires f.WellFormed() && b in f.blocks && b !in st.visited && b !in st.postOrder
    requires f.blocks[b].Children() == [c] && c in st.visited
    ensures Dfs(f, st, b).visited == st.visited + {b} && Dfs(f, st, b).postOrder == st.postOrder + [b]
  {
    var cs := f.blocks[b].Children();
    assert DfsAll(f, st.Mark(b), cs, 0) == st.Mark(b);
    assert Searched(f, st, b) == st.Mark(b);
    LinkKeeps(st.Mark(b), b, f.blocks[b]);
  }

  /** Searching from a block with a single child that is new. */
  lemma SearchChain(f: Func, st: State, b: BlockId, c: BlockId, r: State)
    requires f.WellFormed() && b in f.blocks && b !in st.visited
    requires f.blocks[b].Children() == [c] && c in f.blocks && c !in st.visited && c != b
    requires r == Dfs(f, st.Mark(b), c) && b !in r.postOrder
    ensures Dfs(f, st, b).visited == r.visited && Dfs(f, st, b).postOrder == r.postOrder + [b]
  {
    var cs := f.blocks[b].Children();
    assert DfsAll(f, st.Mark(b), cs, 0) == st.Mark(b);
    assert Searched(f, st, b) == r;
    LinkKeeps(r, b, f.blocks[b]);
  }

  /** Searching from a block with two children, where the search from the first visits the second. */
  lemma SearchFork(f: Func, st: State, b: BlockId, c: BlockId, d: BlockId, r: State)
    requires f.WellFormed() && b in f.blocks && b !in st.visited
    requires f.blocks[b].Children() == [c, d] && c in f.blocks && c !in st.visited && c != b
    requires r == Dfs(f, st.Mark(b), c) && d in r.visited && b !in r.postOrder
    ensures Dfs(f, st, b).visited == r.visited && Dfs(f, st, b).postOrder == r.postOrder + [b]
  {
    var cs := f.blocks[b].Children();
    assert DfsAll(f, st.Mark(b), cs, 0) == st.Mark(b);
    assert DfsAll(f, st.Mark(b), cs, 1) == r;
    assert Searched(f, st, b) == r;
    LinkKeeps(r, b, f.blocks[b]);
  }

  lemma BypassChain(f: Func, s1: State)
    requires f == Bypass() && f.WellFormed() && s1 == Start.Mark(1)
    ensures Dfs(f, s1, 2).visited == {1, 2, 3, 4} && Dfs(f, s1, 2).postOrder == [4, 3, 2]
  {
    BypassChildren();
    var s2 := s1.Mark(2);
    var s3 := s2.Mark(3);
    SearchLeaf(f, s3, 4, 3);
    SearchChain(f, s2, 3, 4, Dfs(f, s3, 4));
    SearchChain(f, s1, 2, 3, Dfs(f, s2, 3));
  }

  lemma BypassPostOrder()
    ensures Bypass().WellFormed() && Final(Bypass()).postOrder == [4, 3, 2, 1]
  {
    BypassChildren();
    BypassChain(Bypass(), Start.Mark(1));
    SearchFork(Bypass(), Start, 1, 2, 4, Dfs(Bypass(), Start.Mark(1), 2));
  }

  lemma BypassOrders(f: Func)
    requires f == Bypass() && f.WellFormed() && Final(f).postOrder == [4, 3, 2, 1]
    ensures Order(Final(f).postOrder, 4) == 1 && Order(Final(f).postOrder, 3) == 2
    ensures Order(Final(f).postOrder, 2) == 3 && Order(Final(f).postOrder, 1) == 4
  {
    FinalInv(f);
    OrderAt(Final(f).postOrder, 0);
    OrderAt(Final(f).postOrder, 1);
    OrderAt(Final(f).postOrder, 2);
    OrderAt(Final(f).postOrder, 3);
  }

  lemma OnlyThrough2(f: Func)
    requires f == Bypass() && f.WellFormed() && Final(f).postOrder == [4, 3, 2, 1]
    ensures Dom(f, 2, 3)
  {
    BypassChildren();
    BypassOrders(f);
    forall u | (u, 3) in Recorded(Final(f)) ensures u == 2 {
      EdgeClassification(f, u, 3);
    }
    DominatesStep(Recorded(Final(f)), 1, 2, 3);
    forall p | Joins(Recorded(Final(f)), 1, 2, p) ensures 2 in p {}
  }

  /** Block 2 does not dominate block 4, from which the back edge comes. */
  lemma NotThrough4(f: Func)
    requires f == Bypass() && f.WellFormed() && Final(f).postOrder == [4, 3, 2, 1]
    ensures BackEdge(f, 4, 3) && !Dom(f, 2, 4)
  {
    BypassChildren();
    BypassOrders(f);
    EdgeClassification(f, 1, 4);
    var q: seq<BlockId> := [1, 4];
    assert (q[0], q[1]) in Recorded(Final(f));
    assert Joins(Recorded(Final(f)), 1, 4, q) && 2 !in q;
    assert Final(f).postOrder[0] == 4;
  }

  lemma AvoidingPath()
    ensures Joins(Execution(Bypass()), 1, 3, [1, 4, 3])
  {
    var f := Bypass();
    var p: seq<BlockId> := [1, 4, 3];
    assert f.blocks[1].Targets() == [2, 4] && f.blocks[4].Targets() == [3];
    assert (p[0], p[1]) in Execution(f) && (p[1], p[2]) in Execution(f);
  }

  /** Block 2 dominates block 3 over the recorded edges, yet the execution path 1, 4, 3 avoids it. */
  lemma DroppingBackEdgesCanMislead()
    ensures Bypass().WellFormed()
    ensures Dom(Bypass(), 2, 3)
    ensures Joins(Execution(Bypass()), 1, 3, [1, 4, 3]) && 2 !in [1, 4, 3]
    ensures !BackEdgesHarmless(Bypass())
  {
    BypassPostOrder();
    OnlyThrough2(Bypass());
    AvoidingPath();
    NotThrough4(Bypass());
  }
}
