/** In what order edges stand in their lists, and when a selection header gets a real edge that it does not branch along. */
module EdgeOrder {
  import opened Blocks
  import opened Paths
  import opened Traversal
  import opened TraversalInvariant
  import opened TraversalResults

  /** The blocks to which a real edge may lead, in the order of their lists: the merge block of a loop, then the targets. */
  function RealChildren(block: Block): (cs: seq<BlockId>)
    ensures forall v :: v in cs <==> block.Branches(v)
  {
    if block.merge.MergeLoop? then [block.mergeBlock] + block.Targets() else block.Targets()
  }

  /** The blocks numbered below u among the first n of cs, each at its first occurrence. */
  ghost function FirstBelow(po: seq<BlockId>, u: BlockId, cs: seq<BlockId>, n: nat): seq<BlockId>
    requires n <= |cs|
  {
    if n == 0 then []
    else
      var before := FirstBelow(po, u, cs, n - 1);
      if Below(po, cs[n - 1], u) && cs[n - 1] !in before then before + [cs[n - 1]] else before
  }

  lemma {:induction false} FirstBelowMember(po: seq<BlockId>, u: BlockId, cs: seq<BlockId>, n: nat, v: BlockId)
    requires n <= |cs|
    ensures v in FirstBelow(po, u, cs, n) <==> Below(po, v, u) && exists i :: 0 <= i < n && cs[i] == v
  {
    if n > 0 { FirstBelowMember(po, u, cs, n - 1, v); }
  }

  lemma {:induction false} FirstBelowNoDup(po: seq<BlockId>, u: BlockId, cs: seq<BlockId>, n: nat)
    requires n <= |cs|
    ensures NoDup(FirstBelow(po, u, cs, n))
  {
    if n > 0 {
      var before := FirstBelow(po, u, cs, n - 1);
      FirstBelowNoDup(po, u, cs, n - 1);
      assert forall i :: 0 <= i < |before| ==> before[i] in before;
    }
  }

  /** A block listed among the first n of cs stands before one that first occurs later. */
  lemma {:induction false} FirstBelowOrder(po: seq<BlockId>, u: BlockId, cs: seq<BlockId>, n: nat, i: nat, j: nat)
    requires i < j < n <= |cs| && Below(po, cs[i], u) && Below(po, cs[j], u)
    requires forall k :: 0 <= k < j ==> cs[k] != cs[j]
    ensures Below(FirstBelow(po, u, cs, n), cs[i], cs[j])
  {
    var before := FirstBelow(po, u, cs, n - 1);
    FirstBelowNoDup(po, u, cs, n - 1);
    FirstBelowNoDup(po, u, cs, n);
    FirstBelowMember(po, u, cs, n - 1, cs[i]);
    FirstBelowMember(po, u, cs, n - 1, cs[j]);
    OrderPrefix(before, FirstBelow(po, u, cs, n), cs[i]);
    if j < n - 1 {
      FirstBelowOrder(po, u, cs, n - 1, i, j);
      OrderPrefix(before, FirstBelow(po, u, cs, n), cs[j]);
    } else {
      OrderSnoc(before, cs[j], cs[j]);
    }
  }

  // ---------- the invariant ----------

  /** No two real predecessors of m are numbered below u. */
  ghost predicate AtMostOneBelow(st: State, m: BlockId, u: BlockId) {
    forall p, q ::
      p in EdgesOf(st.pred, m) && q in EdgesOf(st.pred, m) && Below(st.postOrder, p, u) && Below(st.postOrder, q, u) ==> p == q
  }

  /** Exactly one block numbered below u is a target. */
  ghost predicate OneForwardTarget(po: seq<BlockId>, u: BlockId, block: Block) {
    exists t :: t in block.Targets() && Below(po, t, u) && forall s :: s in block.Targets() && Below(po, s, u) ==> s == t
  }

  /** Does the selection header u have a real edge to its merge block although that is no target? */
  ghost predicate ExtraEdge(st: State, u: BlockId, block: Block) {
    && block.merge.MergeSelection?
    && Below(st.postOrder, block.nextBlock, u) && block.nextBlock !in block.Targets()
    && (AtMostOneBelow(st, block.nextBlock, u)
        || (block.terminator.MultiSelect? && OneForwardTarget(st.postOrder, u, block)))
  }

  /** The successor list of a resolved block, in terms of blocks and numbers. */
  ghost function Successors(st: State, u: BlockId, block: Block): seq<BlockId> {
    FirstBelow(st.postOrder, u, RealChildren(block), |RealChildren(block)|)
    + if ExtraEdge(st, u, block) then [block.nextBlock] else []
  }

  ghost predicate SuccessorsOk(f: Func, st: State, u: BlockId) {
    if u in st.postOrder && u in f.blocks then EdgesOf(st.succ, u) == Successors(st, u, f.blocks[u])
    else EdgesOf(st.succ, u) == []
  }

  /** The list is sorted by number. */
  ghost predicate Ascending(po: seq<BlockId>, list: seq<BlockId>) {
    forall i, j :: 0 <= i < j < |list| ==> Below(po, list[i], list[j])
  }

  ghost predicate PredecessorsOk(st: State, v: BlockId) {
    Ascending(st.postOrder, EdgesOf(st.pred, v)) && Ascending(st.postOrder, EdgesOf(st.virt, v))
  }

  ghost predicate Ordered(f: Func, st: State) {
    (forall v :: PredecessorsOk(st, v)) && (forall u :: SuccessorsOk(f, st, u))
  }

  // ---------- resolving a block ----------

  lemma NewElement(list: seq<BlockId>, longer: seq<BlockId>, i: nat)
    requires list <= longer && NoDup(longer) && |list| <= i < |longer|
    ensures longer[i] !in list
  {
    forall k | 0 <= k < |list| ensures list[k] != longer[i] {
      assert longer[k] == list[k];
    }
  }

  /** A list to which resolving u has added nothing but u. */
  lemma GrownAscending(po: seq<BlockId>, u: BlockId, list: seq<BlockId>, longer: seq<BlockId>)
    requires NoDup(po) && u !in po && Ascending(po, list) && forall x :: x in list ==> x in po
    requires list <= longer && NoDup(longer) && forall x :: x in longer ==> x in list || x == u
    ensures Ascending(po + [u], longer)
  {
    forall i, j | 0 <= i < j < |longer| ensures Below(po + [u], longer[i], longer[j]) {
      BelowSnoc(po, u, longer[i], longer[j]);
      assert longer[i] in longer && longer[j] in longer;
      if j < |list| {
        assert Below(po, list[i], list[j]);
      } else {
        NewElement(list, longer, j);
      }
    }
  }

  /** Resolving u changes no other block's successor list. */
  lemma OtherSuccessors(st: State, linked: State, u: BlockId, block: Block, a: BlockId)
    requires ListsOk(st) && GrowsFrom(st, linked, u, block) && a != u
    ensures EdgesOf(linked.succ, a) == EdgesOf(st.succ, a)
  {
    var list, longer := EdgesOf(st.succ, a), EdgesOf(linked.succ, a);
    assert list <= longer && NoDup(longer);
    forall x | x in longer ensures x in list {
      assert a in EdgesOf(linked.pred, x);
      assert a in EdgesOf(st.pred, x);
    }
    if |list| < |longer| {
      NewElement(list, longer, |list|);
      assert false;
    }
  }

  lemma {:induction false} FirstBelowStays(po: seq<BlockId>, u: BlockId, a: BlockId, cs: seq<BlockId>, n: nat)
    requires NoDup(po) && u !in po && a != u && n <= |cs|
    ensures FirstBelow(po + [u], a, cs, n) == FirstBelow(po, a, cs, n)
  {
    if n > 0 {
      BelowSnoc(po, u, cs[n - 1], a);
      FirstBelowStays(po, u, a, cs, n - 1);
    }
  }

  lemma ExtraEdgeStays(st: State, r: State, u: BlockId, a: BlockId, block: Block)
    requires NoDup(st.postOrder) && u !in st.postOrder && a != u && r.postOrder == st.postOrder + [u]
    requires EdgesOf(st.pred, block.nextBlock) <= EdgesOf(r.pred, block.nextBlock)
    requires forall p :: p in EdgesOf(r.pred, block.nextBlock) ==> p in EdgesOf(st.pred, block.nextBlock) || p == u
    ensures ExtraEdge(r, a, block) <==> ExtraEdge(st, a, block)
  {
    forall p ensures Below(r.postOrder, p, a) <==> Below(st.postOrder, p, a) {
      BelowSnoc(st.postOrder, u, p, a);
    }
    assert !Below(r.postOrder, u, a);
  }

  /** A child of u is off the DFS stack exactly if it will be numbered below u. */
  lemma ForwardIffNumbered(st: State, u: BlockId, c: BlockId)
    requires NoDup(st.postOrder) && u !in st.postOrder && c in st.visited
    ensures !st.OnStack(c) <==> Below(st.postOrder + [u], c, u)
  {
    BelowSnoc(st.postOrder, u, c, u);
  }

  /** The merge edge of a loop comes first. */
  lemma ForwardListStart(st: State, u: BlockId, block: Block)
    requires NoDup(st.postOrder) && u !in st.postOrder && EdgesOf(st.succ, u) == []
    requires block.merge.MergeLoop? ==> block.mergeBlock in st.visited
    ensures var cs := RealChildren(block);
            EdgesOf(st.AddMergeEdge(u, block).succ, u) ==
            FirstBelow(st.postOrder + [u], u, cs, |cs| - |block.Targets()|)
  {
    if block.merge.MergeLoop? {
      ForwardIffNumbered(st, u, block.mergeBlock);
      assert FirstBelow(st.postOrder + [u], u, RealChildren(block), 0) == [];
    }
  }

  lemma ForwardStep(before: State, r: State, po: seq<BlockId>, u: BlockId, cs: seq<BlockId>, k: nat)
    requires 0 < k <= |cs| && r == before.AddForward(u, cs[k - 1])
    requires !before.OnStack(cs[k - 1]) <==> Below(po, cs[k - 1], u)
    requires EdgesOf(before.succ, u) == FirstBelow(po, u, cs, k - 1)
    ensures EdgesOf(r.succ, u) == FirstBelow(po, u, cs, k)
  {
    AddBranchLists(before, u, cs[k - 1], u);
  }

  /** cs holds the targets from some position on. */
  ghost predicate EndsIn(cs: seq<BlockId>, ts: seq<BlockId>) {
    |ts| <= |cs| && forall i :: 0 <= i < |ts| ==> ts[i] == cs[|cs| - |ts| + i]
  }

  /** Then come the targets, in order. */
  lemma {:induction false} ForwardList(st: State, r: State, po: seq<BlockId>, u: BlockId, cs: seq<BlockId>, ts: seq<BlockId>, n: nat)
    requires n <= |ts| && EndsIn(cs, ts) && r == st.AddForwardAll(u, ts, n)
    requires forall c :: c in ts ==> (!st.OnStack(c) <==> Below(po, c, u))
    requires EdgesOf(st.succ, u) == FirstBelow(po, u, cs, |cs| - |ts|)
    ensures EdgesOf(r.succ, u) == FirstBelow(po, u, cs, |cs| - |ts| + n)
    decreases n
  {
    if n > 0 {
      var before, k := st.AddForwardAll(u, ts, n - 1), |cs| - |ts| + n;
      AddForwardAllKeeps(st, u, ts, n - 1);
      ForwardList(st, before, po, u, cs, ts, n - 1);
      assert ts[n - 1] == cs[k - 1] && ts[n - 1] in ts;
      ForwardStep(before, r, po, u, cs, k);
    }
  }

  lemma TargetsOffStack(st: State, merged: State, u: BlockId, block: Block)
    requires NoDup(st.postOrder) && u !in st.postOrder && forall c :: c in block.Children() ==> c in st.visited
    requires merged == st.AddMergeEdge(u, block)
    ensures EndsIn(RealChildren(block), block.Targets())
    ensures forall c :: c in block.Targets() ==> (!merged.OnStack(c) <==> Below(st.postOrder + [u], c, u))
  {
    forall c | c in block.Targets() ensures !merged.OnStack(c) <==> Below(st.postOrder + [u], c, u) {
      assert c in block.Children();
      ForwardIffNumbered(st, u, c);
    }
  }

  lemma TargetsInOrder(st: State, merged: State, before: State, u: BlockId, block: Block)
    requires NoDup(st.postOrder) && u !in st.postOrder && EdgesOf(st.succ, u) == []
    requires forall c :: c in block.Children() ==> c in st.visited
    requires merged == st.AddMergeEdge(u, block) && before == merged.AddForwardAll(u, block.Targets(), |block.Targets()|)
    ensures EdgesOf(before.succ, u) == FirstBelow(st.postOrder + [u], u, RealChildren(block), |RealChildren(block)|)
  {
    assert block.merge.MergeLoop? ==> block.Children()[0] == block.mergeBlock;
    ForwardListStart(st, u, block);
    TargetsOffStack(st, merged, u, block);
    ForwardList(merged, before, st.postOrder + [u], u, RealChildren(block), block.Targets(), |block.Targets()|);
  }

  /** What the fixup appends to the successor list of u. */
  lemma FixupList(st: State, u: BlockId, block: Block)
    requires ListsOk(st)
    ensures var m, list := block.nextBlock, EdgesOf(st.succ, u);
            EdgesOf(st.AddFixup(u, block).succ, u) ==
            if && block.merge.MergeSelection? && !st.OnStack(m) && m !in list
               && (|EdgesOf(st.pred, m)| <= 1 || (block.terminator.MultiSelect? && |list| == 1))
            then list + [m] else list
  {
    var m := block.nextBlock;
    AddBranchLists(st, u, m, u);
    assert u in EdgesOf(st.pred, m) <==> m in EdgesOf(st.succ, u);
    if m in st.pred {
      assert st.pred[m] != [];
      assert st.pred[m][0] in st.pred[m];
      if |st.pred[m]| == 1 { assert u in st.pred[m] <==> st.pred[m][0] == u; }
    }
  }

  lemma OneForwardLength(po: seq<BlockId>, u: BlockId, block: Block)
    ensures OneForwardTarget(po, u, block) <==> |FirstBelow(po, u, block.Targets(), |block.Targets()|)| == 1
  {
    var ts := block.Targets();
    var list := FirstBelow(po, u, ts, |ts|);
    FirstBelowNoDup(po, u, ts, |ts|);
    forall v ensures v in list <==> v in ts && Below(po, v, u) {
      FirstBelowMember(po, u, ts, |ts|, v);
    }
    if |list| == 1 {
      assert list[0] in list;
      assert forall s :: s in list ==> s == list[0];
    } else if |list| > 1 {
      assert list[0] in list && list[1] in list && list[0] != list[1];
    }
  }

  lemma AtMostOneLength(st: State, r: State, m: BlockId, u: BlockId)
    requires NoDup(EdgesOf(st.pred, m)) && EdgesOf(st.pred, m) <= EdgesOf(r.pred, m)
    requires forall p :: p in EdgesOf(st.pred, m) ==> Below(r.postOrder, p, u)
    requires forall p :: p in EdgesOf(r.pred, m) ==> p in EdgesOf(st.pred, m) || p == u
    ensures AtMostOneBelow(r, m, u) <==> |EdgesOf(st.pred, m)| <= 1
  {
    var list, longer := EdgesOf(st.pred, m), EdgesOf(r.pred, m);
    if |list| > 1 {
      assert list[0] in list && list[1] in list && list[0] != list[1];
      assert longer[0] in longer && longer[1] in longer;
    } else {
      forall p, q | p in longer && q in longer && Below(r.postOrder, p, u) && Below(r.postOrder, q, u) ensures p == q {
        assert p in list && q in list;
      }
    }
  }

  /** What the last step of resolving u does to its successor list, in terms of the numbers afterwards. */
  lemma ExtraEdgeRecorded(st: State, before: State, r: State, u: BlockId, block: Block)
    requires NoDup(st.postOrder) && u !in st.postOrder && ListsOk(before) && block.merge.MergeSelection?
    requires before.visited == st.visited && before.postOrder == st.postOrder && block.nextBlock in st.visited
    requires r == before.AddFixup(u, block).(postOrder := st.postOrder + [u])
    requires forall p :: p in EdgesOf(before.pred, block.nextBlock) ==> p in st.postOrder || p == u
    requires EdgesOf(before.succ, u) == FirstBelow(r.postOrder, u, block.Targets(), |block.Targets()|)
    ensures EdgesOf(r.succ, u) == Successors(r, u, block)
  {
    var m, ts := block.nextBlock, block.Targets();
    var list := EdgesOf(before.succ, u);
    FixupList(before, u, block);
    FirstBelowMember(r.postOrder, u, ts, |ts|, m);
    OneForwardLength(r.postOrder, u, block);
    ForwardIffNumbered(st, u, m);
    assert u in EdgesOf(before.pred, m) <==> m in list;
    if Below(r.postOrder, m, u) && m !in ts {
      forall p | p in EdgesOf(before.pred, m) ensures Below(r.postOrder, p, u) {
        BelowSnoc(st.postOrder, u, p, u);
      }
      AddBranchLists(before, u, m, m);
      AtMostOneLength(before, r, m, u);
    }
  }

  /** The state before the fixup. */
  lemma BeforeFixup(st: State, u: BlockId, block: Block, merged: State, before: State)
    requires ListsOk(st)
    requires merged == st.AddMergeEdge(u, block) && before == merged.AddForwardAll(u, block.Targets(), |block.Targets()|)
    ensures before.visited == st.visited && before.postOrder == st.postOrder && ListsOk(before)
    ensures forall p, v :: p in EdgesOf(before.pred, v) ==> p in EdgesOf(st.pred, v) || p == u
  {
    MergeEdgeGrows(st, u, block);
    AddForwardAllGrows(merged, u, block, block.Targets(), |block.Targets()|, before);
    GrowsFromTrans(st, merged, before, u, block);
  }

  /** Resolving u leaves it with the successor list that the numbers determine. */
  lemma LinkSuccessors(st: State, r: State, u: BlockId, block: Block)
    requires NoDup(st.postOrder) && u !in st.postOrder && ListsOk(st) && EdgesOf(st.succ, u) == []
    requires forall c :: c in block.Children() ==> c in st.visited
    requires forall p, v :: p in EdgesOf(st.pred, v) ==> p in st.postOrder
    requires r == st.Link(u, block).(postOrder := st.postOrder + [u])
    ensures EdgesOf(r.succ, u) == Successors(r, u, block)
  {
    var merged, ts := st.AddMergeEdge(u, block), block.Targets();
    var before := merged.AddForwardAll(u, ts, |ts|);
    TargetsInOrder(st, merged, before, u, block);
    BeforeFixup(st, u, block, merged, before);
    if block.merge.MergeSelection? {
      assert block.nextBlock == block.Children()[0];
      ExtraEdgeRecorded(st, before, r, u, block);
    } else {
      assert r == before.(postOrder := r.postOrder);
    }
  }

  lemma ResolveKeepsOrdered(f: Func, st: State, u: BlockId, r: State)
    requires f.WellFormed() && u in f.blocks && Inv(f, st) && Ordered(f, st) && st.OnStack(u)
    requires forall c :: c in f.blocks[u].Children() ==> c in st.visited
    requires r == st.Resolve(u, f.blocks[u])
    ensures Ordered(f, r)
  {
    var block := f.blocks[u];
    LinkRecords(st, u, block);
    forall p, v | p in EdgesOf(st.pred, v) || p in EdgesOf(st.virt, v) ensures p in st.postOrder {
      assert Below(st.postOrder, v, p);
    }
    forall v ensures PredecessorsOk(r, v) {
      ResolveKeepsPredecessors(st, r, u, block, v);
    }
    forall a ensures SuccessorsOk(f, r, a) {
      assert SuccessorsOk(f, st, a);
      if a == u {
        LinkSuccessors(st, r, u, block);
      } else {
        ResolveKeepsSuccessors(f, st, r, u, a);
      }
    }
  }

  lemma ResolveKeepsPredecessors(st: State, r: State, u: BlockId, block: Block, v: BlockId)
    requires ListsOk(st) && ListsOk(r) && NoDup(st.postOrder) && u !in st.postOrder && PredecessorsOk(st, v)
    requires forall p :: p in EdgesOf(st.pred, v) || p in EdgesOf(st.virt, v) ==> p in st.postOrder
    requires GrowsFrom(st, r.(postOrder := st.postOrder), u, block) && r.postOrder == st.postOrder + [u]
    ensures PredecessorsOk(r, v)
  {
    var linked := r.(postOrder := st.postOrder);
    assert EdgesOf(st.pred, v) <= EdgesOf(linked.pred, v) && EdgesOf(st.virt, v) <= EdgesOf(linked.virt, v);
    GrownAscending(st.postOrder, u, EdgesOf(st.pred, v), EdgesOf(r.pred, v));
    GrownAscending(st.postOrder, u, EdgesOf(st.virt, v), EdgesOf(r.virt, v));
  }

  lemma ResolveKeepsSuccessors(f: Func, st: State, r: State, u: BlockId, a: BlockId)
    requires u in f.blocks && ListsOk(st) && NoDup(st.postOrder) && u !in st.postOrder && a != u && SuccessorsOk(f, st, a)
    requires GrowsFrom(st, r.(postOrder := st.postOrder), u, f.blocks[u]) && r.postOrder == st.postOrder + [u]
    ensures SuccessorsOk(f, r, a)
  {
    var linked := r.(postOrder := st.postOrder);
    OtherSuccessors(st, linked, u, f.blocks[u], a);
    if a in st.postOrder && a in f.blocks {
      var block := f.blocks[a];
      assert EdgesOf(st.pred, block.nextBlock) <= EdgesOf(linked.pred, block.nextBlock);
      ExtraEdgeStays(st, r, u, a, block);
      FirstBelowStays(st.postOrder, u, a, RealChildren(block), |RealChildren(block)|);
    }
  }

  // ---------- the whole traversal ----------

  lemma MarkKeepsOrdered(f: Func, st: State, b: BlockId)
    requires Ordered(f, st)
    ensures Ordered(f, st.Mark(b))
  {
    var r := st.Mark(b);
    forall v ensures PredecessorsOk(r, v) {
      assert PredecessorsOk(st, v);
    }
    forall u ensures SuccessorsOk(f, r, u) {
      assert SuccessorsOk(f, st, u);
    }
  }

  lemma {:induction false} DfsOrdered(f: Func, st: State, b: BlockId)
    requires f.WellFormed() && b in f.blocks && b !in st.visited && Inv(f, st) && Ordered(f, st)
    ensures Inv(f, Dfs(f, st, b)) && Ordered(f, Dfs(f, st, b))
    decreases f.blocks.Keys - st.visited, 0, 1
  {
    var cs, searched := f.blocks[b].Children(), Searched(f, st, b);
    MarkKeepsInv(f, st, b);
    MarkKeepsOrdered(f, st, b);
    DfsAllOrdered(f, st.Mark(b), cs, |cs|, searched);
    SearchedKeepsInv(f, st, b);
    DfsKeepsInv(f, st, b);
    forall c | c in cs ensures c in searched.visited {
      SearchedVisits(f, st, b, c);
    }
    ResolveKeepsOrdered(f, searched, b, Dfs(f, st, b));
  }

  lemma {:induction false} DfsAllOrdered(f: Func, st: State, cs: seq<BlockId>, n: nat, r: State)
    requires f.WellFormed() && n <= |cs| && AllBlocks(f, cs) && Inv(f, st) && Ordered(f, st)
    requires r == DfsAll(f, st, cs, n)
    ensures Inv(f, r) && Ordered(f, r)
    decreases f.blocks.Keys - st.visited, n
  {
    if n > 0 {
      var before := DfsAll(f, st, cs, n - 1);
      DfsAllStep(f, st, cs, n, before, r);
      DfsAllOrdered(f, st, cs, n - 1, before);
      DfsNextOrdered(f, before, cs[n - 1], r);
    }
  }

  lemma {:induction false} DfsNextOrdered(f: Func, before: State, c: BlockId, r: State)
    requires f.WellFormed() && c in f.blocks && Inv(f, before) && Ordered(f, before)
    requires r == if c in before.visited then before else Dfs(f, before, c)
    ensures Inv(f, r) && Ordered(f, r)
    decreases f.blocks.Keys - before.visited, 0, 2
  {
    if c !in before.visited {
      DfsOrdered(f, before, c);
    }
  }

  lemma FinalOrdered(f: Func)
    requires f.WellFormed()
    ensures Ordered(f, Final(f))
  {
    StartOk(f);
    DfsOrdered(f, Start, f.entry);
  }

  // ---------- results ----------

  /** a stands somewhere before b. */
  ghost predicate Before(list: seq<BlockId>, a: BlockId, b: BlockId) {
    exists i, j :: 0 <= i < j < |list| && list[i] == a && list[j] == b
  }

  /** The predecessors of a block, real or virtual, are listed in the order of their numbers. */
  lemma PredecessorsAscend(f: Func, v: BlockId, i: nat, j: nat)
    requires f.WellFormed()
    ensures i < j < |EdgesOf(Final(f).pred, v)| ==>
              Below(Final(f).postOrder, EdgesOf(Final(f).pred, v)[i], EdgesOf(Final(f).pred, v)[j])
    ensures i < j < |EdgesOf(Final(f).virt, v)| ==>
              Below(Final(f).postOrder, EdgesOf(Final(f).virt, v)[i], EdgesOf(Final(f).virt, v)[j])
  {
    FinalOrdered(f);
    assert PredecessorsOk(Final(f), v);
  }

  /**
    A selection header that does not branch to its merge block still has a real edge to it exactly in two cases: when at
    most one real predecessor of the merge block is numbered below the header, or when the header is a switch with
    exactly one target numbered below it.
   */
  lemma ExtraRealEdge(f: Func, u: BlockId)
    requires f.WellFormed() && u in Final(f).postOrder && u in f.blocks && f.blocks[u].merge.MergeSelection?
    requires Below(Final(f).postOrder, f.blocks[u].nextBlock, u) && f.blocks[u].nextBlock !in f.blocks[u].Targets()
    ensures var po, edges, m, ts := Final(f).postOrder, Real(Final(f)), f.blocks[u].nextBlock, f.blocks[u].Targets();
            (u, m) in edges <==>
            || (forall p, q :: (p, m) in edges && (q, m) in edges && Below(po, p, u) && Below(po, q, u) ==> p == q)
            || (f.blocks[u].terminator.MultiSelect?
                && exists t :: t in ts && Below(po, t, u) && forall s :: s in ts && Below(po, s, u) ==> s == t)
  {
    var st, block := Final(f), f.blocks[u];
    var m, ts := block.nextBlock, block.Targets();
    FinalOrdered(f);
    ListsMirror(f, u, m);
    assert SuccessorsOk(f, st, u);
    FirstBelowMember(st.postOrder, u, ts, |ts|, m);
    assert m in EdgesOf(st.succ, u) <==> ExtraEdge(st, u, block);
    assert forall p :: (p, m) in Real(st) <==> p in EdgesOf(st.pred, m);
  }

  /** In the successor list of a loop header, its merge block comes first. */
  lemma LoopMergeFirst(f: Func, u: BlockId)
    requires f.WellFormed() && u in f.blocks && f.blocks[u].merge.MergeLoop?
    requires Below(Final(f).postOrder, f.blocks[u].mergeBlock, u)
    ensures EdgesOf(Final(f).succ, u) != [] && EdgesOf(Final(f).succ, u)[0] == f.blocks[u].mergeBlock
  {
    FinalOrdered(f);
    assert SuccessorsOk(f, Final(f), u);
    FirstBelowFirst(Final(f).postOrder, u, RealChildren(f.blocks[u]), |RealChildren(f.blocks[u])|);
  }

  lemma {:induction false} FirstBelowFirst(po: seq<BlockId>, u: BlockId, cs: seq<BlockId>, n: nat)
    requires 0 < n <= |cs| && Below(po, cs[0], u)
    ensures FirstBelow(po, u, cs, n) != [] && FirstBelow(po, u, cs, n)[0] == cs[0]
  {
    if n > 1 {
      FirstBelowFirst(po, u, cs, n - 1);
    } else {
      assert FirstBelow(po, u, cs, 0) == [];
    }
  }

  /** The forward targets stand in the order in which the terminator names them, each at its first occurrence. */
  lemma TargetsInTerminatorOrder(f: Func, u: BlockId, i: nat, j: nat)
    requires f.WellFormed() && u in f.blocks && i < j < |f.blocks[u].Targets()|
    requires Below(Final(f).postOrder, f.blocks[u].Targets()[i], u) && Below(Final(f).postOrder, f.blocks[u].Targets()[j], u)
    requires f.blocks[u].Targets()[j] !in f.blocks[u].Targets()[..j]
    requires f.blocks[u].merge.MergeLoop? ==> f.blocks[u].mergeBlock != f.blocks[u].Targets()[j]
    ensures Before(EdgesOf(Final(f).succ, u), f.blocks[u].Targets()[i], f.blocks[u].Targets()[j])
  {
    var po, block := Final(f).postOrder, f.blocks[u];
    var cs, ts := RealChildren(block), block.Targets();
    var k := |cs| - |ts|;
    FinalOrdered(f);
    assert SuccessorsOk(f, Final(f), u);
    forall n | 0 <= n < k + j ensures cs[n] != cs[k + j] {
      if n >= k { assert cs[n] == ts[..j][n - k]; }
    }
    var list := FirstBelow(po, u, cs, |cs|);
    FirstBelowOrder(po, u, cs, |cs|, k + i, k + j);
    var x, y := Order(list, ts[i]) - 1, Order(list, ts[j]) - 1;
    OrderIndex(list, ts[i]);
    OrderIndex(list, ts[j]);
    var succ := EdgesOf(Final(f).succ, u);
    assert succ[x] == ts[i] && succ[y] == ts[j];
  }

  /** A selection merge that is listed without being a target comes last; all else in the list is a target or loop merge. */
  lemma SelectionMergeLast(f: Func, u: BlockId, v: BlockId)
    requires f.WellFormed() && u in f.blocks && v in EdgesOf(Final(f).succ, u)
    ensures Below(Final(f).postOrder, v, u)
    ensures !f.blocks[u].Branches(v) ==>
              && f.blocks[u].merge.MergeSelection? && v == f.blocks[u].nextBlock
              && EdgesOf(Final(f).succ, u)[|EdgesOf(Final(f).succ, u)| - 1] == v
  {
    var block := f.blocks[u];
    FinalOrdered(f);
    assert SuccessorsOk(f, Final(f), u);
    FirstBelowMember(Final(f).postOrder, u, RealChildren(block), |RealChildren(block)|, v);
  }

  /** A conditional branch lists its true side before its false side. */
  lemma TrueSideFirst(f: Func, u: BlockId)
    requires f.WellFormed() && u in f.blocks && f.blocks[u].terminator.Select?
    requires Below(Final(f).postOrder, f.blocks[u].trueBlock, u) && Below(Final(f).postOrder, f.blocks[u].falseBlock, u)
    requires f.blocks[u].trueBlock != f.blocks[u].falseBlock
    requires f.blocks[u].merge.MergeLoop? ==> f.blocks[u].mergeBlock != f.blocks[u].falseBlock
    ensures Before(EdgesOf(Final(f).succ, u), f.blocks[u].trueBlock, f.blocks[u].falseBlock)
  {
    TargetsInTerminatorOrder(f, u, 0, 1);
  }

  /** A switch lists its cases in order, then its default block. */
  lemma CasesInOrder(f: Func, u: BlockId, i: nat, j: nat)
    requires f.WellFormed() && u in f.blocks && f.blocks[u].terminator.MultiSelect?
    requires i < j <= |f.blocks[u].cases|
    requires var block := f.blocks[u];
             var next := if j < |block.cases| then block.cases[j] else block.defaultBlock;
             && next != 0 && next !in block.cases[..j] && (block.merge.MergeLoop? ==> block.mergeBlock != next)
             && Below(Final(f).postOrder, block.cases[i], u) && Below(Final(f).postOrder, next, u)
    ensures Before(EdgesOf(Final(f).succ, u), f.blocks[u].cases[i],
                   if j < |f.blocks[u].cases| then f.blocks[u].cases[j] else f.blocks[u].defaultBlock)
  {
    assert f.blocks[u].Targets()[..j] == f.blocks[u].cases[..j];
    TargetsInTerminatorOrder(f, u, i, j);
  }

  /** Every field that names a successor of a visited block is followed, and recorded if it leads to a lower number. */
  lemma FieldsFollowed(f: Func, u: BlockId, v: BlockId)
    requires f.WellFormed() && u in Final(f).postOrder && u in f.blocks
    requires var block := f.blocks[u];
             || (block.merge.MergeLoop? && v == block.mergeBlock)
             || (block.terminator.Direct? && v == block.nextBlock)
             || (block.terminator.Select? && (v == block.trueBlock || v == block.falseBlock))
             || (block.terminator.MultiSelect? && (v in block.cases || (v == block.defaultBlock && v != 0)))
    ensures v in Final(f).postOrder
    ensures (u, v) in Real(Final(f)) <==> Below(Final(f).postOrder, v, u)
    ensures v in EdgesOf(Final(f).succ, u) <==> Below(Final(f).postOrder, v, u)
  {
    assert v in f.blocks[u].Children() && f.blocks[u].Branches(v);
    EdgeClassification(f, u, v);
    ListsMirror(f, u, v);
    FinalInv(f);
    if u in EdgesOf(Final(f).pred, v) {
      assert (u, v) in Recorded(Final(f));
    }
  }
}
