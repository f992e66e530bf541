/** What every step of the traversal keeps, and what it has established at the end. */
module TraversalInvariant {
  import opened Blocks
  import opened Paths
  import opened Traversal

  // ---------- post-order numbers ----------

  lemma OrderIndex(po: seq<BlockId>, b: BlockId)
    requires b in po
    ensures po[Order(po, b) - 1] == b
  {
  }

  lemma OrderAt(po: seq<BlockId>, i: nat)
    requires NoDup(po) && i < |po|
    ensures Order(po, po[i]) == i + 1
  {
    OrderIndex(po, po[i]);
  }

  lemma OrderSnoc(po: seq<BlockId>, u: BlockId, x: BlockId)
    requires NoDup(po) && u !in po
    ensures NoDup(po + [u])
    ensures Order(po + [u], x) == if x == u then |po| + 1 else Order(po, x)
  {
    assert forall i :: 0 <= i < |po| ==> po[i] in po;
    if x in po + [u] {
      OrderIndex(po + [u], x);
      if x != u { OrderIndex(po, x); }
    }
  }

  /** Numbers never change once given, and later blocks get larger ones. */
  lemma OrderPrefix(po: seq<BlockId>, longer: seq<BlockId>, b: BlockId)
    requires po <= longer && NoDup(longer) && b in longer
    ensures if b in po then Order(longer, b) == Order(po, b) else Order(longer, b) > |po|
  {
    if b in po {
      OrderIndex(po, b);
      OrderAt(longer, Order(po, b) - 1);
    } else {
      OrderIndex(longer, b);
    }
  }

  lemma OrderInjective(po: seq<BlockId>, a: BlockId, b: BlockId)
    requires a in po && b in po && Order(po, a) == Order(po, b)
    ensures a == b
  {
    OrderIndex(po, a);
    OrderIndex(po, b);
  }

  /** Both blocks are numbered, and v lower than u. */
  ghost predicate Below(po: seq<BlockId>, v: BlockId, u: BlockId) {
    v in po && u in po && Order(po, v) < Order(po, u)
  }

  lemma BelowSnoc(po: seq<BlockId>, u: BlockId, v: BlockId, a: BlockId)
    requires NoDup(po) && u !in po
    ensures Below(po + [u], v, a) <==> Below(po, v, a) || (a == u && v in po)
  {
    OrderSnoc(po, u, v);
    OrderSnoc(po, u, a);
  }

  // ---------- the invariant ----------

  /** Real edges appear in both directions. */
  ghost predicate Mirrored(st: State) {
    forall a, v :: a in EdgesOf(st.pred, v) <==> v in EdgesOf(st.succ, a)
  }

  /** No list holds a duplicate. */
  ghost predicate Unique(st: State) {
    forall k :: NoDup(EdgesOf(st.pred, k)) && NoDup(EdgesOf(st.virt, k)) && NoDup(EdgesOf(st.succ, k))
  }

  ghost predicate ListsOk(st: State) {
    && Mirrored(st)
    && Unique(st)
    && (forall k :: k in st.pred ==> st.pred[k] != [])
  }

  ghost predicate ShapeOk(f: Func, st: State) {
    && st.visited <= f.blocks.Keys
    && NoDup(st.postOrder)
    && (forall b :: b in st.postOrder ==> b in st.visited)
  }

  /** Every child of a resolved block has been visited. */
  ghost predicate ResolvedClosed(f: Func, st: State)
    requires ShapeOk(f, st)
  {
    forall u, c {:trigger c in f.blocks[u].Children()} :: u in st.postOrder && c in f.blocks[u].Children() ==> c in st.visited
  }

  /** Recorded edges run from a higher to a lower number, and only where the function has a flow edge. */
  ghost predicate EdgesDescend(f: Func, st: State)
    requires ShapeOk(f, st)
  {
    && (forall u, v :: u in EdgesOf(st.pred, v) ==>
         Below(st.postOrder, v, u) && v in f.blocks[u].Children())
    && (forall u, v :: u in EdgesOf(st.virt, v) ==>
         Below(st.postOrder, v, u) && f.blocks[u].merge.MergeSelection? && v == f.blocks[u].nextBlock)
  }

  /** Every forward edge is recorded: real for targets and loop merges, virtual for selection merges. */
  ghost predicate EdgesComplete(f: Func, st: State)
    requires ShapeOk(f, st)
  {
    forall u, v :: Below(st.postOrder, v, u) ==>
      && (f.blocks[u].Branches(v) ==> u in EdgesOf(st.pred, v))
      && (f.blocks[u].merge.MergeSelection? && v == f.blocks[u].nextBlock ==>
           u in EdgesOf(st.virt, v) && MergeCovered(st, u, v))
  }

  /** The merge block m of the selection header u has that header or two distinct blocks among its real predecessors. */
  ghost predicate MergeCovered(st: State, u: BlockId, m: BlockId) {
    u in EdgesOf(st.pred, m) || |EdgesOf(st.pred, m)| >= 2
  }

  ghost predicate Inv(f: Func, st: State) {
    && ShapeOk(f, st)
    && ListsOk(st)
    && ResolvedClosed(f, st)
    && EdgesDescend(f, st)
    && EdgesComplete(f, st)
  }

  /** How one state of the traversal relates to a later one: nothing is taken back, and the DFS stack is the same again. */
  ghost predicate Extends(st: State, later: State) {
    && st.visited <= later.visited
    && st.postOrder <= later.postOrder
    && (forall b :: st.OnStack(b) <==> later.OnStack(b))
    && EdgesGrow(st, later)
  }

  ghost predicate EdgesGrow(st: State, later: State) {
    forall k ::
      && EdgesOf(st.pred, k) <= EdgesOf(later.pred, k)
      && EdgesOf(st.virt, k) <= EdgesOf(later.virt, k)
      && EdgesOf(st.succ, k) <= EdgesOf(later.succ, k)
  }

  // ---------- recording edges ----------

  /** later is st with some edges from u added, all of them to children of u that are off the stack. */
  ghost predicate GrowsFrom(st: State, later: State, u: BlockId, block: Block) {
    && later.visited == st.visited && later.postOrder == st.postOrder
    && EdgesGrow(st, later)
    && (ListsOk(st) ==> ListsOk(later))
    && (forall a, v :: a in EdgesOf(later.pred, v) ==>
         a in EdgesOf(st.pred, v) || (a == u && v in block.Children() && !st.OnStack(v)))
    && (forall a, v :: a in EdgesOf(later.virt, v) ==>
         a in EdgesOf(st.virt, v)
         || (a == u && block.merge.MergeSelection? && v == block.nextBlock && !st.OnStack(v)))
  }

  lemma AddEdgeAt(m: EdgeMap, key: BlockId, value: BlockId, k: BlockId)
    ensures EdgesOf(AddEdge(m, key, value), k) == if k == key then AddUnique(EdgesOf(m, key), value) else EdgesOf(m, k)
  {
  }

  lemma AddBranchLists(st: State, u: BlockId, v: BlockId, k: BlockId)
    ensures EdgesOf(st.AddBranch(u, v).pred, k) == if k == v then AddUnique(EdgesOf(st.pred, v), u) else EdgesOf(st.pred, k)
    ensures EdgesOf(st.AddBranch(u, v).succ, k) == if k == u then AddUnique(EdgesOf(st.succ, u), v) else EdgesOf(st.succ, k)
  {
    AddEdgeAt(st.pred, v, u, k);
    AddEdgeAt(st.succ, u, v, k);
  }

  lemma AddBranchListsOk(st: State, u: BlockId, v: BlockId)
    requires ListsOk(st)
    ensures ListsOk(st.AddBranch(u, v))
  {
    var r := st.AddBranch(u, v);
    forall a, b ensures a in EdgesOf(r.pred, b) <==> b in EdgesOf(r.succ, a) {
      AddBranchLists(st, u, v, a);
      AddBranchLists(st, u, v, b);
      assert a in EdgesOf(st.pred, b) <==> b in EdgesOf(st.succ, a);
    }
    forall k ensures NoDup(EdgesOf(r.pred, k)) && NoDup(EdgesOf(r.virt, k)) && NoDup(EdgesOf(r.succ, k)) {
      AddBranchLists(st, u, v, k);
    }
    forall k | k in r.pred ensures r.pred[k] != [] {
      AddBranchLists(st, u, v, k);
    }
  }

  lemma AddBranchGrows(st: State, u: BlockId, block: Block, v: BlockId)
    requires v in block.Children() && !st.OnStack(v)
    ensures GrowsFrom(st, st.AddBranch(u, v), u, block)
    ensures u in EdgesOf(st.AddBranch(u, v).pred, v)
  {
    if ListsOk(st) { AddBranchListsOk(st, u, v); }
    forall k
      ensures EdgesOf(st.AddBranch(u, v).pred, k) ==
              if k == v then AddUnique(EdgesOf(st.pred, v), u) else EdgesOf(st.pred, k)
      ensures EdgesOf(st.AddBranch(u, v).succ, k) ==
              if k == u then AddUnique(EdgesOf(st.succ, u), v) else EdgesOf(st.succ, k)
    {
      AddBranchLists(st, u, v, k);
    }
  }

  lemma AddVirtualGrows(st: State, u: BlockId, block: Block)
    requires block.merge.MergeSelection? && !st.OnStack(block.nextBlock)
    ensures GrowsFrom(st, st.AddVirtual(u, block.nextBlock), u, block)
    ensures u in EdgesOf(st.AddVirtual(u, block.nextBlock).virt, block.nextBlock)
  {
    forall k
      ensures EdgesOf(AddEdge(st.virt, block.nextBlock, u), k) ==
              if k == block.nextBlock then AddUnique(EdgesOf(st.virt, k), u) else EdgesOf(st.virt, k)
    {
      AddEdgeAt(st.virt, block.nextBlock, u, k);
    }
  }

  lemma GrowsFromTrans(st: State, mid: State, later: State, u: BlockId, block: Block)
    requires GrowsFrom(st, mid, u, block) && GrowsFrom(mid, later, u, block)
    ensures GrowsFrom(st, later, u, block)
  {
    forall k
      ensures EdgesOf(st.pred, k) <= EdgesOf(later.pred, k)
      ensures EdgesOf(st.virt, k) <= EdgesOf(later.virt, k)
      ensures EdgesOf(st.succ, k) <= EdgesOf(later.succ, k)
    {
      assert EdgesOf(mid.pred, k) <= EdgesOf(later.pred, k);
    }
    forall v ensures st.OnStack(v) == mid.OnStack(v) {}
  }

  lemma AddForwardGrows(st: State, u: BlockId, block: Block, v: BlockId)
    requires v in block.Children()
    ensures GrowsFrom(st, st.AddForward(u, v), u, block)
    ensures !st.OnStack(v) ==> u in EdgesOf(st.AddForward(u, v).pred, v)
  {
    if !st.OnStack(v) { AddBranchGrows(st, u, block, v); }
  }

  lemma {:induction false} AddForwardAllGrows(st: State, u: BlockId, block: Block, vs: seq<BlockId>, n: nat, r: State)
    requires n <= |vs| && r == st.AddForwardAll(u, vs, n) && forall v :: v in vs ==> v in block.Children()
    ensures GrowsFrom(st, r, u, block)
  {
    if n > 0 {
      assert vs[n - 1] in vs;
      var mid := st.AddForwardAll(u, vs, n - 1);
      AddForwardAllGrows(st, u, block, vs, n - 1, mid);
      AddForwardGrows(mid, u, block, vs[n - 1]);
      GrowsFromTrans(st, mid, r, u, block);
    }
  }

  lemma {:induction false} AddForwardAllRecords(st: State, u: BlockId, block: Block, vs: seq<BlockId>, n: nat, i: nat)
    requires i < n <= |vs| && (forall v :: v in vs ==> v in block.Children()) && !st.OnStack(vs[i])
    ensures u in EdgesOf(st.AddForwardAll(u, vs, n).pred, vs[i])
  {
    var mid, last := st.AddForwardAll(u, vs, n - 1), vs[n - 1];
    assert last in vs;
    AddForwardAllKeeps(st, u, vs, n - 1);
    AddForwardGrows(mid, u, block, last);
    if i < n - 1 {
      AddForwardAllRecords(st, u, block, vs, n - 1, i);
      GrowsFromKeeps(mid, mid.AddForward(u, last), u, block, vs[i]);
    }
  }

  lemma FixupCovers(st: State, u: BlockId, block: Block)
    requires ListsOk(st)
    ensures GrowsFrom(st, st.AddFixup(u, block), u, block)
    ensures block.merge.MergeSelection? && !st.OnStack(block.nextBlock) ==>
              MergeCovered(st.AddFixup(u, block), u, block.nextBlock)
  {
    var m := block.nextBlock;
    if st.NeedsFixup(u, block) {
      AddBranchGrows(st, u, block, m);
    } else if block.merge.MergeSelection? && !st.OnStack(m) {
      assert m in st.pred && st.pred[m] != [];
      assert |st.pred[m]| != 1 || st.pred[m][0] == u;
    }
  }

  lemma MergeEdgeGrows(st: State, u: BlockId, block: Block)
    ensures GrowsFrom(st, st.AddMergeEdge(u, block), u, block)
    ensures block.merge.MergeLoop? && !st.OnStack(block.mergeBlock) ==>
              u in EdgesOf(st.AddMergeEdge(u, block).pred, block.mergeBlock)
    ensures block.merge.MergeSelection? && !st.OnStack(block.nextBlock) ==>
              u in EdgesOf(st.AddMergeEdge(u, block).virt, block.nextBlock)
  {
    if block.merge.MergeLoop? && !st.OnStack(block.mergeBlock) {
      AddBranchGrows(st, u, block, block.mergeBlock);
    } else if block.merge.MergeSelection? && !st.OnStack(block.nextBlock) {
      AddVirtualGrows(st, u, block);
    }
  }

  lemma TargetRecorded(st: State, u: BlockId, block: Block, v: BlockId)
    requires v in block.Targets() && !st.OnStack(v)
    ensures u in EdgesOf(st.AddForwardAll(u, block.Targets(), |block.Targets()|).pred, v)
  {
    var i :| 0 <= i < |block.Targets()| && block.Targets()[i] == v;
    AddForwardAllRecords(st, u, block, block.Targets(), |block.Targets()|, i);
  }

  lemma GrowsFromKeeps(st: State, later: State, u: BlockId, block: Block, v: BlockId)
    requires GrowsFrom(st, later, u, block)
    ensures u in EdgesOf(st.pred, v) ==> u in EdgesOf(later.pred, v)
    ensures u in EdgesOf(st.virt, v) ==> u in EdgesOf(later.virt, v)
  {
    assert EdgesOf(st.pred, v) <= EdgesOf(later.pred, v) && EdgesOf(st.virt, v) <= EdgesOf(later.virt, v);
  }

  /** What resolving u records, for every child off the stack. */
  lemma LinkRecords(st: State, u: BlockId, block: Block)
    requires ListsOk(st)
    ensures GrowsFrom(st, st.Link(u, block), u, block)
    ensures forall v :: block.Branches(v) && !st.OnStack(v) ==> u in EdgesOf(st.Link(u, block).pred, v)
    ensures block.merge.MergeSelection? && !st.OnStack(block.nextBlock) ==>
              u in EdgesOf(st.Link(u, block).virt, block.nextBlock) && MergeCovered(st.Link(u, block), u, block.nextBlock)
  {
    var s1 := st.AddMergeEdge(u, block);
    var s2 := s1.AddForwardAll(u, block.Targets(), |block.Targets()|);
    var s3 := s2.AddFixup(u, block);
    MergeEdgeGrows(st, u, block);
    AddForwardAllGrows(s1, u, block, block.Targets(), |block.Targets()|, s2);
    FixupCovers(s2, u, block);
    GrowsFromTrans(st, s1, s2, u, block);
    GrowsFromTrans(st, s2, s3, u, block);
    forall v | block.Branches(v) && !st.OnStack(v) ensures u in EdgesOf(s3.pred, v) {
      if v in block.Targets() { TargetRecorded(s1, u, block, v); }
      GrowsFromKeeps(s1, s2, u, block, v);
      GrowsFromKeeps(s2, s3, u, block, v);
    }
    GrowsFromKeeps(s1, s2, u, block, block.nextBlock);
    GrowsFromKeeps(s2, s3, u, block, block.nextBlock);
  }

  // ---------- every step keeps the invariant ----------

  lemma MarkKeepsInv(f: Func, st: State, b: BlockId)
    requires Inv(f, st) && b in f.blocks
    ensures Inv(f, st.Mark(b))
  {
    var r := st.Mark(b);
    assert ListsOk(r);
    assert ShapeOk(f, r);
    assert EdgesDescend(f, r);
    forall u, v | Below(r.postOrder, v, u)
      ensures f.blocks[u].merge.MergeSelection? && v == f.blocks[u].nextBlock ==>
                u in EdgesOf(r.virt, v) && MergeCovered(r, u, v)
    {
      assert Below(st.postOrder, v, u);
    }
  }

  lemma ResolveKeepsInv(f: Func, st: State, u: BlockId)
    requires Inv(f, st) && st.OnStack(u)
    requires forall c :: c in f.blocks[u].Children() ==> c in st.visited
    ensures Inv(f, st.Resolve(u, f.blocks[u]))
  {
    var block := f.blocks[u];
    var r := st.Resolve(u, block);
    LinkRecords(st, u, block);
    assert r == st.Link(u, block).(postOrder := st.postOrder + [u]);
    assert ListsOk(r);
    assert ShapeOk(f, r) && ResolvedClosed(f, r);
    forall v, a ensures Below(r.postOrder, v, a) <==> Below(st.postOrder, v, a) || (a == u && v in st.postOrder) {
      BelowSnoc(st.postOrder, u, v, a);
    }
    ResolveKeepsDescend(f, st, st.Link(u, block), r, u);
    ResolveKeepsComplete(f, st, r, u);
  }

  lemma ResolveKeepsDescend(f: Func, st: State, linked: State, r: State, u: BlockId)
    requires ShapeOk(f, st) && EdgesDescend(f, st) && st.OnStack(u)
    requires GrowsFrom(st, linked, u, f.blocks[u])
    requires r == linked.(postOrder := st.postOrder + [u]) && ShapeOk(f, r)
    requires forall c :: c in f.blocks[u].Children() ==> c in st.visited
    requires forall v, a :: Below(r.postOrder, v, a) <==> Below(st.postOrder, v, a) || (a == u && v in st.postOrder)
    ensures EdgesDescend(f, r)
  {
    forall a, v | a in EdgesOf(r.pred, v)
      ensures Below(r.postOrder, v, a) && v in f.blocks[a].Children()
    {
      assert a in EdgesOf(linked.pred, v);
    }
    forall a, v | a in EdgesOf(r.virt, v)
      ensures Below(r.postOrder, v, a) && f.blocks[a].merge.MergeSelection? && v == f.blocks[a].nextBlock
    {
      assert a in EdgesOf(linked.virt, v);
      if a !in EdgesOf(st.virt, v) { assert v in f.blocks[u].Children(); }
    }
  }

  lemma ResolveKeepsComplete(f: Func, st: State, r: State, u: BlockId)
    requires ShapeOk(f, st) && ListsOk(st) && EdgesComplete(f, st) && st.OnStack(u)
    requires r == st.Resolve(u, f.blocks[u]) && ShapeOk(f, r)
    requires forall v, a :: Below(r.postOrder, v, a) <==> Below(st.postOrder, v, a) || (a == u && v in st.postOrder)
    ensures EdgesComplete(f, r)
  {
    var linked := st.Link(u, f.blocks[u]);
    LinkRecords(st, u, f.blocks[u]);
    forall a, v | Below(r.postOrder, v, a)
      ensures f.blocks[a].Branches(v) ==> a in EdgesOf(r.pred, v)
      ensures f.blocks[a].merge.MergeSelection? && v == f.blocks[a].nextBlock ==>
                a in EdgesOf(r.virt, v) && MergeCovered(r, a, v)
    {
      assert EdgesOf(st.pred, v) <= EdgesOf(linked.pred, v) && EdgesOf(st.virt, v) <= EdgesOf(linked.virt, v);
    }
  }

  // ---------- whole searches ----------

  lemma ExtendsTrans(st: State, mid: State, later: State)
    requires Extends(st, mid) && Extends(mid, later)
    ensures Extends(st, later)
  {
    forall k
      ensures EdgesOf(st.pred, k) <= EdgesOf(later.pred, k)
      ensures EdgesOf(st.virt, k) <= EdgesOf(later.virt, k)
      ensures EdgesOf(st.succ, k) <= EdgesOf(later.succ, k)
    {
      assert EdgesOf(mid.pred, k) <= EdgesOf(later.pred, k);
    }
  }

  /** What holds when all children of b have been searched: b is on the stack again, and about to resolve. */
  lemma {:induction false} SearchedKeepsInv(f: Func, st: State, b: BlockId)
    requires f.WellFormed() && b in f.blocks && b !in st.visited && Inv(f, st)
    ensures Inv(f, Searched(f, st, b)) && Extends(st.Mark(b), Searched(f, st, b)) && Searched(f, st, b).OnStack(b)
    decreases f.blocks.Keys - st.visited, 0, 0
  {
    var cs := f.blocks[b].Children();
    MarkKeepsInv(f, st, b);
    DfsAllKeepsInv(f, st.Mark(b), cs, |cs|);
    assert st.Mark(b).OnStack(b);
  }

  /** b resolves last, and is off the stack afterwards. */
  lemma ResolveExtends(f: Func, st: State, b: BlockId, searched: State, r: State)
    requires b in f.blocks && b !in st.visited && Inv(f, st) && Inv(f, searched)
    requires Extends(st.Mark(b), searched) && searched.OnStack(b)
    requires r == searched.Resolve(b, f.blocks[b])
    ensures Extends(st, r)
    ensures r.postOrder == searched.postOrder + [b] && r.visited == searched.visited
  {
    LinkRecords(searched, b, f.blocks[b]);
    forall x ensures st.OnStack(x) <==> r.OnStack(x) {
      assert st.Mark(b).OnStack(x) <==> searched.OnStack(x);
    }
    forall k
      ensures EdgesOf(st.pred, k) <= EdgesOf(r.pred, k)
      ensures EdgesOf(st.virt, k) <= EdgesOf(r.virt, k)
      ensures EdgesOf(st.succ, k) <= EdgesOf(r.succ, k)
    {
      assert EdgesOf(searched.pred, k) <= EdgesOf(r.pred, k);
    }
  }

  lemma {:induction false} DfsKeepsInv(f: Func, st: State, b: BlockId)
    requires f.WellFormed() && b in f.blocks && b !in st.visited && Inv(f, st)
    ensures Inv(f, Dfs(f, st, b)) && Extends(st, Dfs(f, st, b))
    ensures Dfs(f, st, b).postOrder == Searched(f, st, b).postOrder + [b]
    ensures Dfs(f, st, b).visited == Searched(f, st, b).visited
    decreases f.blocks.Keys - st.visited, 0, 1
  {
    var searched := Searched(f, st, b);
    SearchedKeepsInv(f, st, b);
    forall c | c in f.blocks[b].Children() ensures c in searched.visited {
      SearchedVisits(f, st, b, c);
    }
    ResolveKeepsInv(f, searched, b);
    ResolveExtends(f, st, b, searched, Dfs(f, st, b));
  }

  lemma {:induction false} DfsAllKeepsInv(f: Func, st: State, cs: seq<BlockId>, n: nat)
    requires f.WellFormed() && n <= |cs| && AllBlocks(f, cs) && Inv(f, st)
    ensures Inv(f, DfsAll(f, st, cs, n)) && Extends(st, DfsAll(f, st, cs, n))
    decreases f.blocks.Keys - st.visited, n
  {
    if n > 0 {
      var before := DfsAll(f, st, cs, n - 1);
      DfsAllKeepsInv(f, st, cs, n - 1);
      DfsNextKeepsInv(f, before, cs, n, DfsAll(f, st, cs, n));
      ExtendsTrans(st, before, DfsAll(f, st, cs, n));
    }
  }

  lemma {:induction false} DfsNextKeepsInv(f: Func, before: State, cs: seq<BlockId>, n: nat, r: State)
    requires f.WellFormed() && 0 < n <= |cs| && cs[n - 1] in f.blocks && Inv(f, before)
    requires r == if cs[n - 1] in before.visited then before else Dfs(f, before, cs[n - 1])
    ensures Inv(f, r) && Extends(before, r)
    decreases f.blocks.Keys - before.visited, 0, 2
  {
    if cs[n - 1] !in before.visited {
      DfsKeepsInv(f, before, cs[n - 1]);
    }
  }

  lemma ExtendsSelf(st: State)
    ensures Extends(st, st)
  {
  }

  lemma ExtendsNext(f: Func, mid: State, before: State, cs: seq<BlockId>, n: nat, r: State)
    requires f.WellFormed() && 0 < n <= |cs| && cs[n - 1] in f.blocks && Inv(f, before) && Extends(mid, before)
    requires r == if cs[n - 1] in before.visited then before else Dfs(f, before, cs[n - 1])
    ensures Extends(mid, r)
  {
    DfsNextKeepsInv(f, before, cs, n, r);
    ExtendsTrans(mid, before, r);
  }

  /** The later part of a list is searched from the state that the earlier part leaves. */
  lemma {:induction false} DfsAllExtends(f: Func, st: State, cs: seq<BlockId>, k: nat, mid: State, n: nat, r: State)
    requires f.WellFormed() && k <= n <= |cs| && AllBlocks(f, cs) && Inv(f, st)
    requires mid == DfsAll(f, st, cs, k) && r == DfsAll(f, st, cs, n)
    ensures Extends(mid, r)
    decreases n
  {
    if k == n {
      ExtendsSelf(mid);
    } else {
      var before := DfsAll(f, st, cs, n - 1);
      assert cs[n - 1] in cs;
      DfsAllExtends(f, st, cs, k, mid, n - 1, before);
      DfsAllKeepsInv(f, st, cs, n - 1);
      ExtendsNext(f, mid, before, cs, n, r);
    }
  }
}
