/**
  The traversal as the plain recursive algorithm: mark a block, recurse on its children in order, resolve it.
  The CFG class is proved to compute exactly this with its explicit stack.
*/
module Traversal {
  import opened Blocks
  import opened Paths

  type EdgeMap = map<BlockId, seq<BlockId>>

  function EdgesOf(m: EdgeMap, b: BlockId): seq<BlockId> {
    if b in m then m[b] else []
  }

  ghost predicate NoDup(s: seq<BlockId>) {
    forall i, j :: 0 <= i < j < |s| ==> s[i] != s[j]
  }

  function AddUnique(l: seq<BlockId>, value: BlockId): (r: seq<BlockId>)
    ensures l <= r && (forall x :: x in r <==> x in l || x == value)
    ensures NoDup(l) ==> NoDup(r)
  {
    if value in l then l else l + [value]
  }

  /** Appends value to the list under key, which is created when missing. */
  function AddEdge(m: EdgeMap, key: BlockId, value: BlockId): EdgeMap {
    m[key := AddUnique(EdgesOf(m, key), value)]
  }

  /** Post-order number of b: its position in the post order counted from one, 0 for a block not in it. */
  ghost function Order(po: seq<BlockId>, b: BlockId): (n: nat)
    ensures n <= |po| && (n > 0 <==> b in po)
  {
    if b in po then
      var i :| 0 <= i < |po| && po[i] == b;
      i + 1
    else
      0
  }

  /** visited: branches have been visited. A visited block outside the post order is still on the DFS stack. */
  datatype State = State(
    visited: set<BlockId>,
    postOrder: seq<BlockId>,
    pred: EdgeMap,
    virt: EdgeMap,
    succ: EdgeMap)
  {
    predicate OnStack(b: BlockId) {
      b in visited && b !in postOrder
    }

    function AddBranch(u: BlockId, v: BlockId): State {
      this.(pred := AddEdge(pred, v, u), succ := AddEdge(succ, u, v))
    }

    function AddVirtual(u: BlockId, v: BlockId): State {
      this.(virt := AddEdge(virt, v, u))
    }

    /** Records u -> v unless v is still on the stack, which makes it a back edge. */
    function AddForward(u: BlockId, v: BlockId): State {
      if OnStack(v) then this else AddBranch(u, v)
    }

    /** AddForward for the first n blocks of vs, in order. */
    function AddForwardAll(u: BlockId, vs: seq<BlockId>, n: nat): State
      requires n <= |vs|
    {
      if n == 0 then this
      else AddForwardAll(u, vs, n - 1).AddForward(u, vs[n - 1])
    }

    /** The edge from a header to its merge block: real for a loop, virtual for a selection. */
    function AddMergeEdge(u: BlockId, block: Block): State {
      if block.merge.MergeLoop? && !OnStack(block.mergeBlock) then AddBranch(u, block.mergeBlock)
      else if block.merge.MergeSelection? && !OnStack(block.nextBlock) then AddVirtual(u, block.nextBlock)
      else this
    }

    /** Does the selection header u also need a real edge to its merge block? */
    predicate NeedsFixup(u: BlockId, block: Block) {
      && block.merge.MergeSelection?
      && !OnStack(block.nextBlock)
      && (if block.nextBlock !in pred then true
          else if block.terminator.MultiSelect? && |EdgesOf(succ, u)| == 1 then pred[block.nextBlock] != []
          else |pred[block.nextBlock]| == 1 && pred[block.nextBlock][0] != u)
    }

    function AddFixup(u: BlockId, block: Block): State {
      if NeedsFixup(u, block) then AddBranch(u, block.nextBlock) else this
    }

    /** All edges recorded when u resolves. */
    function Link(u: BlockId, block: Block): State {
      AddMergeEdge(u, block).AddForwardAll(u, block.Targets(), |block.Targets()|).AddFixup(u, block)
    }

    function Mark(b: BlockId): State {
      this.(visited := visited + {b})
    }

    function Resolve(u: BlockId, block: Block): State {
      if u in postOrder then this
      else Link(u, block).(postOrder := postOrder + [u])
    }
  }

  const Start := State({}, [], map[], map[], map[])

  lemma {:induction false} AddForwardAllKeeps(st: State, u: BlockId, vs: seq<BlockId>, n: nat)
    requires n <= |vs|
    ensures st.AddForwardAll(u, vs, n).visited == st.visited
    ensures st.AddForwardAll(u, vs, n).postOrder == st.postOrder
    ensures st.AddForwardAll(u, vs, n).virt == st.virt
  {
    if n > 0 { AddForwardAllKeeps(st, u, vs, n - 1); }
  }

  lemma LinkKeeps(st: State, u: BlockId, block: Block)
    ensures st.Link(u, block).visited == st.visited && st.Link(u, block).postOrder == st.postOrder
    ensures st.Link(u, block).virt == st.AddMergeEdge(u, block).virt
  {
    AddForwardAllKeeps(st.AddMergeEdge(u, block), u, block.Targets(), |block.Targets()|);
  }

  ghost predicate AllBlocks(f: Func, bs: seq<BlockId>) {
    forall b :: b in bs ==> b in f.blocks
  }

  /** The recursive depth-first search from an unvisited block. */
  ghost function Dfs(f: Func, st: State, b: BlockId): (r: State)
    requires f.WellFormed() && b in f.blocks && b !in st.visited
    ensures st.visited + {b} <= r.visited
    decreases f.blocks.Keys - st.visited, 0, 1
  {
    var r := Searched(f, st, b);
    LinkKeeps(r, b, f.blocks[b]);
    r.Resolve(b, f.blocks[b])
  }

  /** The state when all children of b have been searched and b is about to resolve. */
  ghost function Searched(f: Func, st: State, b: BlockId): (r: State)
    requires f.WellFormed() && b in f.blocks && b !in st.visited
    ensures st.visited + {b} <= r.visited
    decreases f.blocks.Keys - st.visited, 0, 0
  {
    DfsAll(f, st.Mark(b), f.blocks[b].Children(), |f.blocks[b].Children()|)
  }

  /** Searches from each of the first n blocks of cs that is not visited when its turn comes. */
  ghost function DfsAll(f: Func, st: State, cs: seq<BlockId>, n: nat): (r: State)
    requires f.WellFormed() && n <= |cs| && AllBlocks(f, cs)
    ensures st.visited <= r.visited
    decreases f.blocks.Keys - st.visited, n
  {
    if n == 0 then st
    else
      var before := DfsAll(f, st, cs, n - 1);
      assert cs[n - 1] in cs;
      if cs[n - 1] in before.visited then before else Dfs(f, before, cs[n - 1])
  }

  /** The last of n steps. */
  lemma DfsAllStep(f: Func, st: State, cs: seq<BlockId>, n: nat, before: State, r: State)
    requires f.WellFormed() && 0 < n <= |cs| && AllBlocks(f, cs)
    requires before == DfsAll(f, st, cs, n - 1) && r == DfsAll(f, st, cs, n)
    ensures cs[n - 1] in f.blocks && st.visited <= before.visited
    ensures r == if cs[n - 1] in before.visited then before else Dfs(f, before, cs[n - 1])
  {
    assert cs[n - 1] in cs;
  }

  lemma {:induction false} DfsAllVisits(f: Func, st: State, cs: seq<BlockId>, n: nat, i: nat)
    requires f.WellFormed() && i < n <= |cs| && AllBlocks(f, cs)
    ensures cs[i] in DfsAll(f, st, cs, n).visited
    decreases n
  {
    var before := DfsAll(f, st, cs, n - 1);
    assert before.visited <= DfsAll(f, st, cs, n).visited;
    if i < n - 1 { DfsAllVisits(f, st, cs, n - 1, i); }
  }

  lemma SearchedVisits(f: Func, st: State, b: BlockId, c: BlockId)
    requires f.WellFormed() && b in f.blocks && b !in st.visited && c in f.blocks[b].Children()
    ensures c in Searched(f, st, b).visited
  {
    var cs := f.blocks[b].Children();
    var i :| 0 <= i < |cs| && cs[i] == c;
    DfsAllVisits(f, st.Mark(b), cs, |cs|, i);
  }

  /** What the whole traversal of a function computes. */
  ghost function Final(f: Func): State
    requires f.WellFormed()
  {
    Dfs(f, Start, f.entry)
  }

  /** S: every terminator target and merge target. */
  ghost function Flow(f: Func): Graph {
    iset e: (BlockId, BlockId) | e.0 in f.blocks && e.1 in f.blocks[e.0].Children()
  }

  /** The edges control can really take: terminator targets only. */
  ghost function Execution(f: Func): Graph {
    iset e: (BlockId, BlockId) | e.0 in f.blocks && e.1 in f.blocks[e.0].Targets()
  }

  /** The recorded real edges. */
  ghost function Real(st: State): Graph {
    iset e: (BlockId, BlockId) | e.0 in EdgesOf(st.pred, e.1)
  }

  /** G: the recorded edges, real and virtual. */
  ghost function Recorded(st: State): Graph {
    iset e: (BlockId, BlockId) | e.0 in EdgesOf(st.pred, e.1) || e.0 in EdgesOf(st.virt, e.1)
  }
}
