/** What the finished traversal of a function guarantees. */
module TraversalResults {
  import opened Blocks
  import opened Paths
  import opened Traversal
  import opened TraversalInvariant

  // ---------- which blocks are visited ----------

  /** p leads from the entry to b through visited blocks only, b itself excepted. */
  ghost predicate Arrival(f: Func, st: State, b: BlockId, p: seq<BlockId>) {
    Joins(Flow(f), f.entry, b, p) && forall x :: x in p ==> x in st.visited || x == b
  }

  ghost predicate Arrives(f: Func, st: State, b: BlockId) {
    exists p :: Arrival(f, st, b, p)
  }

  /** Every visited block was reached through blocks visited with it. */
  ghost predicate Rooted(f: Func, st: State) {
    forall b :: b in st.visited ==> Arrives(f, st, b)
  }

  lemma ArrivesLater(f: Func, st: State, later: State, b: BlockId)
    requires Arrives(f, st, b) && st.visited <= later.visited
    ensures Arrives(f, later, b)
  {
    var p :| Arrival(f, st, b, p);
    assert Arrival(f, later, b, p);
  }

  lemma ArrivesChild(f: Func, st: State, u: BlockId, c: BlockId)
    requires u in st.visited && u in f.blocks && c in f.blocks[u].Children() && Arrives(f, st, u)
    ensures Arrives(f, st, c)
  {
    var p :| Arrival(f, st, u, p);
    Extend(Flow(f), f.entry, u, p, c);
    assert Arrival(f, st, c, p + [c]);
  }

  lemma RootedLater(f: Func, st: State, later: State)
    requires Rooted(f, st) && later.visited == st.visited
    ensures Rooted(f, later)
  {
    forall x | x in later.visited ensures Arrives(f, later, x) {
      ArrivesLater(f, st, later, x);
    }
  }

  lemma MarkRooted(f: Func, st: State, b: BlockId)
    requires Rooted(f, st) && Arrives(f, st, b)
    ensures Rooted(f, st.Mark(b))
  {
    forall x | x in st.Mark(b).visited ensures Arrives(f, st.Mark(b), x) {
      ArrivesLater(f, st, st.Mark(b), x);
    }
  }

  lemma {:induction false} DfsRooted(f: Func, st: State, b: BlockId)
    requires f.WellFormed() && b in f.blocks && b !in st.visited
    requires Rooted(f, st) && Arrives(f, st, b)
    ensures Rooted(f, Dfs(f, st, b))
    decreases f.blocks.Keys - st.visited, 0
  {
    var cs := f.blocks[b].Children();
    MarkRooted(f, st, b);
    DfsAllRooted(f, st.Mark(b), b, |cs|);
    LinkKeeps(Searched(f, st, b), b, f.blocks[b]);
    RootedLater(f, Searched(f, st, b), Dfs(f, st, b));
  }

  lemma {:induction false} DfsAllRooted(f: Func, st: State, u: BlockId, n: nat)
    requires f.WellFormed() && u in f.blocks && u in st.visited && n <= |f.blocks[u].Children()|
    requires Rooted(f, st)
    ensures Rooted(f, DfsAll(f, st, f.blocks[u].Children(), n))
    decreases f.blocks.Keys - st.visited, n
  {
    if n > 0 {
      var cs := f.blocks[u].Children();
      var before := DfsAll(f, st, cs, n - 1);
      DfsAllRooted(f, st, u, n - 1);
      if cs[n - 1] !in before.visited {
        ArrivesChild(f, before, u, cs[n - 1]);
        DfsRooted(f, before, cs[n - 1]);
      }
    }
  }

  /** A search visits only what can be reached from where it starts. */
  lemma {:induction false} DfsReaches(f: Func, st: State, b: BlockId, x: BlockId)
    requires f.WellFormed() && b in f.blocks && b !in st.visited
    requires x in Dfs(f, st, b).visited && x !in st.visited
    ensures Reaches(Flow(f), b, x)
    decreases f.blocks.Keys - st.visited, 0
  {
    var cs := f.blocks[b].Children();
    LinkKeeps(Searched(f, st, b), b, f.blocks[b]);
    Trivial(Flow(f), b);
    if x != b {
      DfsAllReaches(f, st.Mark(b), b, |cs|, x);
    }
  }

  lemma {:induction false} DfsAllReaches(f: Func, st: State, u: BlockId, n: nat, x: BlockId)
    requires f.WellFormed() && u in f.blocks && n <= |f.blocks[u].Children()|
    requires x in DfsAll(f, st, f.blocks[u].Children(), n).visited && x !in st.visited
    ensures Reaches(Flow(f), u, x)
    decreases f.blocks.Keys - st.visited, n
  {
    var cs := f.blocks[u].Children();
    var before := DfsAll(f, st, cs, n - 1);
    if x in before.visited {
      DfsAllReaches(f, st, u, n - 1, x);
    } else {
      DfsReaches(f, before, cs[n - 1], x);
      Trivial(Flow(f), u);
      ReachesStep(Flow(f), u, u, cs[n - 1]);
      ReachesTrans(Flow(f), u, cs[n - 1], x);
    }
  }

  // ---------- predecessors ----------

  lemma LinkGivesPredecessor(st: State, u: BlockId, block: Block, x: BlockId)
    requires ListsOk(st) && !st.OnStack(x)
    requires x in block.Children() || EdgesOf(st.pred, x) != []
    ensures EdgesOf(st.Link(u, block).pred, x) != []
  {
    LinkRecords(st, u, block);
    assert EdgesOf(st.pred, x) <= EdgesOf(st.Link(u, block).pred, x);
    if x in block.Children() && !block.Branches(x) {
      assert MergeCovered(st.Link(u, block), u, x);
    }
  }

  lemma ExtendsKeepsPredecessors(st: State, later: State, x: BlockId)
    requires Extends(st, later) && EdgesOf(st.pred, x) != []
    ensures EdgesOf(later.pred, x) != []
  {
    assert EdgesOf(st.pred, x) <= EdgesOf(later.pred, x);
  }

  /** Whatever a search visits below b has a real predecessor once the search is over. */
  lemma {:induction false} DfsGivesPredecessors(f: Func, st: State, b: BlockId, x: BlockId)
    requires f.WellFormed() && b in f.blocks && b !in st.visited && Inv(f, st)
    requires x in Dfs(f, st, b).visited && x !in st.visited && x != b
    ensures EdgesOf(Dfs(f, st, b).pred, x) != []
    decreases f.blocks.Keys - st.visited, 0, 1
  {
    var cs := f.blocks[b].Children();
    var searched := Searched(f, st, b);
    SearchedKeepsInv(f, st, b);
    LinkKeeps(searched, b, f.blocks[b]);
    assert !st.Mark(b).OnStack(x);
    if x !in cs {
      MarkKeepsInv(f, st, b);
      DfsAllGivesPredecessors(f, st.Mark(b), cs, |cs|, searched, x);
    }
    LinkGivesPredecessor(searched, b, f.blocks[b], x);
  }

  lemma {:induction false} DfsAllGivesPredecessors(f: Func, st: State, cs: seq<BlockId>, n: nat, r: State, x: BlockId)
    requires f.WellFormed() && n <= |cs| && AllBlocks(f, cs) && Inv(f, st) && r == DfsAll(f, st, cs, n)
    requires x in r.visited && x !in st.visited && x !in cs
    ensures EdgesOf(r.pred, x) != []
    decreases f.blocks.Keys - st.visited, n
  {
    var before := DfsAll(f, st, cs, n - 1);
    DfsAllKeepsInv(f, st, cs, n - 1);
    if x in before.visited {
      DfsAllGivesPredecessors(f, st, cs, n - 1, before, x);
    }
    DfsNextGivesPredecessors(f, before, cs, n, r, x);
  }

  lemma {:induction false} DfsNextGivesPredecessors(f: Func, before: State, cs: seq<BlockId>, n: nat, r: State, x: BlockId)
    requires f.WellFormed() && 0 < n <= |cs| && cs[n - 1] in f.blocks && Inv(f, before) && x !in cs
    requires r == if cs[n - 1] in before.visited then before else Dfs(f, before, cs[n - 1])
    requires x in r.visited && (x in before.visited ==> EdgesOf(before.pred, x) != [])
    ensures EdgesOf(r.pred, x) != []
    decreases f.blocks.Keys - before.visited, 0, 2
  {
    if cs[n - 1] !in before.visited {
      if x in before.visited {
        DfsKeepsInv(f, before, cs[n - 1]);
        ExtendsKeepsPredecessors(before, r, x);
      } else {
        DfsGivesPredecessors(f, before, cs[n - 1], x);
      }
    }
  }

  // ---------- results ----------

  lemma StartOk(f: Func)
    requires f.WellFormed()
    ensures Inv(f, Start) && Rooted(f, Start) && Arrives(f, Start, f.entry)
  {
    Trivial(Flow(f), f.entry);
    assert Arrival(f, Start, f.entry, [f.entry]);
  }

  lemma FinalInv(f: Func)
    requires f.WellFormed()
    ensures Inv(f, Final(f))
    ensures forall b :: b in Final(f).visited <==> b in Final(f).postOrder
    ensures f.entry in Final(f).postOrder && Order(Final(f).postOrder, f.entry) == |Final(f).postOrder|
  {
    StartOk(f);
    DfsKeepsInv(f, Start, f.entry);
    SearchedKeepsInv(f, Start, f.entry);
    OrderSnoc(Searched(f, Start, f.entry).postOrder, f.entry, f.entry);
    forall b | b in Final(f).visited ensures b in Final(f).postOrder {
      assert !Start.OnStack(b);
    }
  }

  /** The post order enumerates, without duplicates, exactly the blocks that flow edges reach from the entry. */
  lemma Coverage(f: Func)
    requires f.WellFormed()
    ensures NoDup(Final(f).postOrder)
    ensures forall b :: b in Final(f).postOrder <==> Reaches(Flow(f), f.entry, b)
    ensures forall i :: 0 <= i < |Final(f).postOrder| ==> Order(Final(f).postOrder, Final(f).postOrder[i]) == i + 1
  {
    var st := Final(f);
    FinalInv(f);
    StartOk(f);
    DfsRooted(f, Start, f.entry);
    forall b ensures b in st.postOrder <==> Reaches(Flow(f), f.entry, b) {
      if b in st.postOrder {
        assert b in st.visited;
        var p :| Arrival(f, st, b, p);
      }
      if Reaches(Flow(f), f.entry, b) {
        var p :| Joins(Flow(f), f.entry, b, p);
        ClosedContains(Flow(f), f.entry, b, p, st.visited);
      }
    }
    forall i | 0 <= i < |st.postOrder| ensures Order(st.postOrder, st.postOrder[i]) == i + 1 {
      OrderAt(st.postOrder, i);
    }
  }

  lemma RecordedDescends(f: Func, st: State, u: BlockId, v: BlockId)
    requires ShapeOk(f, st) && EdgesDescend(f, st) && (u, v) in Recorded(st)
    ensures (u, v) in Flow(f) && Below(st.postOrder, v, u)
  {
    assert u in EdgesOf(st.pred, v) || u in EdgesOf(st.virt, v);
    assert Below(st.postOrder, v, u);
    if u in EdgesOf(st.virt, v) {
      assert f.blocks[u].Children()[0] == v;
    }
  }

  lemma ForwardRecorded(f: Func, st: State, u: BlockId, v: BlockId)
    requires ShapeOk(f, st) && EdgesComplete(f, st)
    requires (u, v) in Flow(f) && Below(st.postOrder, v, u)
    ensures (u, v) in Recorded(st)
  {
    BranchOrSelection(f.blocks[u], v);
  }

  /** A flow edge is recorded exactly when it goes to a lower number; nothing else is recorded. */
  lemma EdgeClassification(f: Func, u: BlockId, v: BlockId)
    requires f.WellFormed()
    ensures (u, v) in Recorded(Final(f)) <==> (u, v) in Flow(f) && Below(Final(f).postOrder, v, u)
    ensures u in Final(f).postOrder && (u, v) in Flow(f) ==> v in Final(f).postOrder
  {
    FinalInv(f);
    var st := Final(f);
    if (u, v) in Recorded(st) { RecordedDescends(f, st, u, v); }
    if (u, v) in Flow(f) && Below(st.postOrder, v, u) { ForwardRecorded(f, st, u, v); }
  }

  lemma BranchOrSelection(block: Block, v: BlockId)
    requires v in block.Children()
    ensures block.Branches(v) || (block.merge.MergeSelection? && v == block.nextBlock)
  {
  }

  lemma LastIsHighest(po: seq<BlockId>, last: BlockId, b: BlockId)
    requires last in po && Order(po, last) == |po|
    ensures !Below(po, last, b)
    ensures b in po && b != last ==> Below(po, b, last)
  {
    if b in po && Order(po, b) == |po| { OrderInjective(po, b, last); }
  }

  lemma EmptyOrHasMember(s: seq<BlockId>)
    ensures s == [] || exists x :: x in s
  {
    if s != [] { assert s[0] in s; }
  }

  lemma LastHasNoPredecessor(f: Func, st: State, last: BlockId)
    requires ShapeOk(f, st) && EdgesDescend(f, st) && forall a :: !Below(st.postOrder, last, a)
    ensures EdgesOf(st.pred, last) == [] && EdgesOf(st.virt, last) == []
  {
    var ps, vs := EdgesOf(st.pred, last), EdgesOf(st.virt, last);
    forall u ensures u !in ps && u !in vs {
      assert !Below(st.postOrder, last, u);
    }
    EmptyOrHasMember(ps);
    EmptyOrHasMember(vs);
  }

  /** Nothing precedes the entry, which has the largest number. */
  lemma EntryIsLast(f: Func)
    requires f.WellFormed()
    ensures EdgesOf(Final(f).pred, f.entry) == [] && EdgesOf(Final(f).virt, f.entry) == []
    ensures forall b :: b in Final(f).postOrder && b != f.entry ==> Below(Final(f).postOrder, b, f.entry)
  {
    FinalInv(f);
    var st := Final(f);
    forall b
      ensures !Below(st.postOrder, f.entry, b)
      ensures b in st.postOrder && b != f.entry ==> Below(st.postOrder, b, f.entry)
    {
      LastIsHighest(st.postOrder, f.entry, b);
    }
    LastHasNoPredecessor(f, st, f.entry);
  }

  /** Every visited block but the entry has a real predecessor. */
  lemma EveryBlockHasPredecessor(f: Func, b: BlockId)
    requires f.WellFormed() && b in Final(f).postOrder && b != f.entry
    ensures EdgesOf(Final(f).pred, b) != []
    ensures exists u :: (u, b) in Real(Final(f)) && Below(Final(f).postOrder, b, u)
  {
    FinalInv(f);
    StartOk(f);
    DfsGivesPredecessors(f, Start, f.entry, b);
    var u := EdgesOf(Final(f).pred, b)[0];
    assert u in EdgesOf(Final(f).pred, b);
    assert (u, b) in Real(Final(f));
  }

  /** A selection merge that is no back edge has its header, or two distinct blocks, among its real predecessors. */
  lemma SelectionMergeCovered(f: Func, u: BlockId)
    requires f.WellFormed() && u in Final(f).postOrder && u in f.blocks && f.blocks[u].merge.MergeSelection?
    requires Below(Final(f).postOrder, f.blocks[u].nextBlock, u)
    ensures var preds := EdgesOf(Final(f).pred, f.blocks[u].nextBlock);
            u in preds || exists a, b :: a in preds && b in preds && a != b
  {
    FinalInv(f);
    var preds := EdgesOf(Final(f).pred, f.blocks[u].nextBlock);
    if |preds| >= 2 {
      assert NoDup(preds);
      assert preds[0] in preds && preds[1] in preds && preds[0] != preds[1];
    }
  }

  /** Predecessor and successor lists mirror each other and hold no duplicates. */
  lemma ListsMirror(f: Func, a: BlockId, v: BlockId)
    requires f.WellFormed()
    ensures a in EdgesOf(Final(f).pred, v) <==> v in EdgesOf(Final(f).succ, a)
    ensures NoDup(EdgesOf(Final(f).pred, v)) && NoDup(EdgesOf(Final(f).succ, v)) && NoDup(EdgesOf(Final(f).virt, v))
  {
    FinalInv(f);
  }
}
