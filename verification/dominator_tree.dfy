/** Immediate-dominator trees whose parents have larger post-order numbers, complete or partly built. */
module DominatorTree {
  import opened Blocks
  import opened Paths
  import opened Traversal
  import opened TraversalInvariant
  import opened TraversalResults

  /** idom maps each block to its immediate dominator, and the root to itself. */
  datatype Tree = Tree(root: BlockId, postOrder: seq<BlockId>, idom: map<BlockId, BlockId>) {

    /** A block of the tree is numbered, and its parent is in the tree with a larger number. */
    ghost predicate ParentOk(b: BlockId) {
      b in idom ==> b in postOrder && idom[b] in idom && (b != root ==> Below(postOrder, b, idom[b]))
    }

    /** The root, its own parent, has the largest number; numbers rise towards it. */
    ghost predicate Rising() {
      && root in idom && idom[root] == root && Order(postOrder, root) == |postOrder|
      && 0 !in idom
      && (forall b :: ParentOk(b))
    }

    /** b and its ancestors. */
    ghost function Chain(b: BlockId): (chain: set<BlockId>)
      requires Rising() && b in idom
      ensures b in chain && root in chain
      ensures forall x :: x in chain ==> x in idom && (x == b || Below(postOrder, b, x))
      decreases |postOrder| - Order(postOrder, b)
    {
      assert ParentOk(b);
      if b == root then {b} else {b} + Chain(idom[b])
    }

    /** Two fingers, the one with the lower number moving up, until they meet: the nearest common ancestor. */
    ghost function Meet(a: BlockId, b: BlockId): (r: BlockId)
      requires Rising() && a in idom && b in idom
      ensures r in idom
      decreases |postOrder| - Order(postOrder, a) + |postOrder| - Order(postOrder, b)
    {
      assert ParentOk(a) && ParentOk(b);
      if a == b then a
      else if Order(postOrder, a) < Order(postOrder, b) then Meet(idom[a], b)
      else
        assert Order(postOrder, a) > Order(postOrder, b) by {
          if Order(postOrder, a) == Order(postOrder, b) { OrderInjective(postOrder, a, b); }
        }
        Meet(a, idom[b])
    }
  }

  /** The ancestors of the meet are the common ancestors. */
  lemma {:induction false} MeetChain(t: Tree, a: BlockId, b: BlockId)
    requires t.Rising() && a in t.idom && b in t.idom
    ensures t.Chain(t.Meet(a, b)) == t.Chain(a) * t.Chain(b)
    decreases |t.postOrder| - Order(t.postOrder, a) + |t.postOrder| - Order(t.postOrder, b)
  {
    assert t.ParentOk(a) && t.ParentOk(b);
    if a != b {
      if Order(t.postOrder, a) < Order(t.postOrder, b) {
        assert a !in t.Chain(b);
        MeetChain(t, t.idom[a], b);
      } else {
        if Order(t.postOrder, a) == Order(t.postOrder, b) { OrderInjective(t.postOrder, a, b); }
        assert b !in t.Chain(a);
        MeetChain(t, a, t.idom[b]);
      }
    }
  }

  lemma ChainInjective(t: Tree, a: BlockId, b: BlockId)
    requires t.Rising() && a in t.idom && b in t.idom && t.Chain(a) == t.Chain(b)
    ensures a == b
  {
    assert a in t.Chain(b) && b in t.Chain(a);
  }

  /** An ancestor's ancestors are ancestors. */
  lemma {:induction false} ChainOfAncestor(t: Tree, x: BlockId, b: BlockId)
    requires t.Rising() && b in t.idom && x in t.Chain(b)
    ensures x in t.idom && t.Chain(x) <= t.Chain(b)
    decreases |t.postOrder| - Order(t.postOrder, b)
  {
    assert t.ParentOk(b);
    if x != b {
      ChainOfAncestor(t, x, t.idom[b]);
    }
  }

  /** The meet of two blocks is their common ancestor with the lowest number, below all their common ancestors. */
  lemma {:induction false} MeetIsNearest(t: Tree, a: BlockId, b: BlockId, c: BlockId)
    requires t.Rising() && a in t.idom && b in t.idom && c in t.idom
    ensures c in t.Chain(a) && c in t.Chain(b) <==> c in t.Chain(t.Meet(a, b))
    ensures c in t.Chain(a) && c in t.Chain(b) ==> c == t.Meet(a, b) || Below(t.postOrder, t.Meet(a, b), c)
  {
    MeetChain(t, a, b);
  }

  lemma {:induction false} MeetUnique(t: Tree, a: BlockId, b: BlockId, r: BlockId)
    requires t.Rising() && a in t.idom && b in t.idom && r in t.idom && t.Chain(r) == t.Chain(a) * t.Chain(b)
    ensures r == t.Meet(a, b)
  {
    MeetChain(t, a, b);
    ChainInjective(t, r, t.Meet(a, b));
  }

  lemma {:induction false} MeetCommutes(t: Tree, a: BlockId, b: BlockId)
    requires t.Rising() && a in t.idom && b in t.idom
    ensures t.Meet(a, a) == a
    ensures t.Meet(a, b) == t.Meet(b, a)
  {
    MeetChain(t, b, a);
    assert t.Chain(b) * t.Chain(a) == t.Chain(a) * t.Chain(b);
    MeetUnique(t, a, b, t.Meet(b, a));
  }

  lemma {:induction false} MeetAssociates(t: Tree, a: BlockId, b: BlockId, c: BlockId)
    requires t.Rising() && a in t.idom && b in t.idom && c in t.idom
    ensures t.Meet(t.Meet(a, b), c) == t.Meet(a, t.Meet(b, c))
  {
    MeetOfThree(t, a, b, c);
    MeetChain(t, b, c);
    MeetUnique(t, a, t.Meet(b, c), t.Meet(t.Meet(a, b), c));
  }

  lemma {:induction false} MeetOfThree(t: Tree, a: BlockId, b: BlockId, c: BlockId)
    requires t.Rising() && a in t.idom && b in t.idom && c in t.idom
    ensures t.Chain(t.Meet(t.Meet(a, b), c)) == t.Chain(a) * (t.Chain(b) * t.Chain(c))
  {
    MeetChain(t, a, b);
    MeetChain(t, t.Meet(a, b), c);
    IntersectionAssociates(t.Chain(a), t.Chain(b), t.Chain(c));
  }

  lemma IntersectionAssociates(a: set<BlockId>, b: set<BlockId>, c: set<BlockId>)
    ensures (a * b) * c == a * (b * c)
  {
  }

  // ---------- building the tree ----------

  /** Changing the parent of a block leaves the chains of higher-numbered blocks alone. */
  lemma {:induction false} ChainFrame(t: Tree, t': Tree, block: BlockId, c: BlockId)
    requires t.Rising() && t'.Rising() && t.root == t'.root && t.postOrder == t'.postOrder
    requires t.idom - {block} == t'.idom - {block}
    requires c in t.idom && Below(t.postOrder, block, c)
    ensures c in t'.idom && t'.Chain(c) == t.Chain(c)
    decreases |t.postOrder| - Order(t.postOrder, c)
  {
    assert t.ParentOk(c) && t'.ParentOk(c);
    assert c in t.idom - {block} && (t.idom - {block})[c] == t.idom[c];
    assert c in t'.idom - {block} && (t'.idom - {block})[c] == t'.idom[c];
    if c != t.root {
      ChainFrame(t, t', block, t.idom[c]);
    }
  }

  /** All of ps are in the tree, and numbered above block. */
  ghost predicate Ready(t: Tree, block: BlockId, ps: seq<BlockId>) {
    forall p :: p in ps ==> p in t.idom && Below(t.postOrder, block, p)
  }

  /** The ancestors that the first n blocks of ps have in common. */
  ghost function Common(t: Tree, ps: seq<BlockId>, n: nat): set<BlockId>
    requires t.Rising() && 0 < n <= |ps| && forall p :: p in ps ==> p in t.idom
  {
    assert ps[n - 1] in ps;
    if n == 1 then t.Chain(ps[0]) else Common(t, ps, n - 1) * t.Chain(ps[n - 1])
  }

  lemma {:induction false} CommonMember(t: Tree, ps: seq<BlockId>, n: nat, x: BlockId)
    requires t.Rising() && 0 < n <= |ps| && forall p :: p in ps ==> p in t.idom
    ensures x in Common(t, ps, n) <==> forall i :: 0 <= i < n ==> x in t.Chain(ps[i])
  {
    if n > 1 {
      CommonMember(t, ps, n - 1, x);
    }
  }

  /** The effect of one predecessor on the parent of block: the first becomes the parent, others move it up. */
  ghost function Attach(t: Tree, block: BlockId, edge: BlockId): Tree {
    if t.Rising() && edge in t.idom && block in t.idom then
      assert t.ParentOk(block);
      t.(idom := t.idom[block := t.Meet(t.idom[block], edge)])
    else
      t.(idom := t.idom[block := edge])
  }

  /** The effect of the first n predecessors of ps. */
  ghost function AttachAll(t: Tree, block: BlockId, ps: seq<BlockId>, n: nat): Tree
    requires n <= |ps|
  {
    if n == 0 then t else Attach(AttachAll(t, block, ps, n - 1), block, ps[n - 1])
  }

  /** Whenever a predecessor's turn comes, it is in the tree and the tree is sound. */
  ghost predicate Attachable(t: Tree, block: BlockId, ps: seq<BlockId>) {
    forall n {:trigger AttachAll(t, block, ps, n)} :: 0 <= n < |ps| ==>
      AttachAll(t, block, ps, n).Rising() && ps[n] in AttachAll(t, block, ps, n).idom
  }

  /** The ancestors of the parent of block are those that the first n blocks of ps have in common. */
  ghost predicate Attached(t: Tree, block: BlockId, ps: seq<BlockId>, n: nat)
    requires t.Rising()
  {
    && n <= |ps| && Ready(t, block, ps)
    && (n == 0 ==> block !in t.idom)
    && (n > 0 ==> block in t.idom && t.idom[block] in t.idom && t.Chain(t.idom[block]) == Common(t, ps, n))
  }

  lemma AttachRising(t: Tree, block: BlockId, edge: BlockId)
    requires t.Rising() && edge in t.idom && Below(t.postOrder, block, edge) && block != t.root && block != 0
    ensures Attach(t, block, edge).Rising()
    ensures Attach(t, block, edge).idom - {block} == t.idom - {block}
    ensures Below(t.postOrder, block, Attach(t, block, edge).idom[block])
    ensures Attach(t, block, edge).idom[block] in t.idom
  {
    var t' := Attach(t, block, edge);
    var parent := t'.idom[block];
    assert t.ParentOk(block) && t.ParentOk(edge);
    if block in t.idom {
      MeetChain(t, t.idom[block], edge);
      assert parent in t.Chain(edge) by { assert parent in t.Chain(parent); }
      assert parent == edge || Below(t.postOrder, edge, parent);
    }
    assert Below(t.postOrder, block, parent);
    forall b ensures t'.ParentOk(b) {
      assert t.ParentOk(b);
    }
  }

  lemma {:induction false} CommonFrame(t: Tree, t': Tree, block: BlockId, ps: seq<BlockId>, n: nat)
    requires t.Rising() && t'.Rising() && t.root == t'.root && t.postOrder == t'.postOrder
    requires t.idom - {block} == t'.idom - {block}
    requires Ready(t, block, ps) && Ready(t', block, ps) && 0 < n <= |ps|
    ensures Common(t', ps, n) == Common(t, ps, n)
  {
    assert ps[n - 1] in ps;
    ChainFrame(t, t', block, ps[n - 1]);
    if n > 1 {
      CommonFrame(t, t', block, ps, n - 1);
    }
  }

  lemma ReadyFrame(t: Tree, t': Tree, block: BlockId, ps: seq<BlockId>)
    requires t.postOrder == t'.postOrder && t.idom - {block} == t'.idom - {block} && Ready(t, block, ps)
    ensures Ready(t', block, ps)
  {
    forall p | p in ps ensures p in t'.idom {
      assert p in t.idom - {block};
    }
  }

  lemma AttachCommon(t: Tree, block: BlockId, ps: seq<BlockId>, n: nat)
    requires t.Rising() && Attached(t, block, ps, n) && n < |ps| && ps[n] in t.idom
    ensures Attach(t, block, ps[n]).idom[block] in t.idom
    ensures t.Chain(Attach(t, block, ps[n]).idom[block]) == Common(t, ps, n + 1)
  {
    if n > 0 {
      var parent := t.idom[block];
      MeetChain(t, parent, ps[n]);
      assert t.Chain(t.Meet(parent, ps[n])) == t.Chain(parent) * t.Chain(ps[n]) == Common(t, ps, n + 1);
    }
  }

  /** Attaching the next predecessor. */
  lemma AttachNext(t: Tree, block: BlockId, ps: seq<BlockId>, n: nat)
    requires t.Rising() && block != t.root && block != 0 && Attached(t, block, ps, n) && n < |ps|
    ensures ps[n] in t.idom && Attach(t, block, ps[n]).Rising()
    ensures Attach(t, block, ps[n]).idom - {block} == t.idom - {block}
    ensures Attached(Attach(t, block, ps[n]), block, ps, n + 1)
  {
    assert ps[n] in ps;
    AttachRising(t, block, ps[n]);
    AttachCommon(t, block, ps, n);
    AttachedAfter(t, Attach(t, block, ps[n]), block, ps, n);
  }

  lemma AttachedAfter(t: Tree, t': Tree, block: BlockId, ps: seq<BlockId>, n: nat)
    requires t.Rising() && t'.Rising() && t.root == t'.root && t.postOrder == t'.postOrder
    requires t.idom - {block} == t'.idom - {block} && Ready(t, block, ps) && n < |ps|
    requires block in t'.idom && t'.idom[block] in t.idom && Below(t.postOrder, block, t'.idom[block])
    requires t.Chain(t'.idom[block]) == Common(t, ps, n + 1)
    ensures Attached(t', block, ps, n + 1)
  {
    ReadyFrame(t, t', block, ps);
    CommonFrame(t, t', block, ps, n + 1);
    ChainFrame(t, t', block, t'.idom[block]);
  }

  /** After n of the predecessors ps. */
  lemma {:induction false} AttachAllAttached(t: Tree, block: BlockId, ps: seq<BlockId>, n: nat)
    requires t.Rising() && block != t.root && block != 0 && Attached(t, block, ps, 0) && n <= |ps|
    ensures AttachAll(t, block, ps, n).Rising()
    ensures AttachAll(t, block, ps, n).idom - {block} == t.idom - {block}
    ensures AttachAll(t, block, ps, n).root == t.root && AttachAll(t, block, ps, n).postOrder == t.postOrder
    ensures Attached(AttachAll(t, block, ps, n), block, ps, n)
  {
    if n > 0 {
      var before := AttachAll(t, block, ps, n - 1);
      AttachAllAttached(t, block, ps, n - 1);
      AttachNext(before, block, ps, n - 1);
      assert AttachAll(t, block, ps, n) == Attach(before, block, ps[n - 1]);
    }
  }

  lemma {:induction false} AttachAllPrefix(t: Tree, block: BlockId, pred: seq<BlockId>, virt: seq<BlockId>, n: nat)
    requires n <= |pred|
    ensures AttachAll(t, block, pred + virt, n) == AttachAll(t, block, pred, n)
  {
    if n > 0 { AttachAllPrefix(t, block, pred, virt, n - 1); }
  }

  lemma {:induction false} AttachAllConcat(t: Tree, block: BlockId, pred: seq<BlockId>, virt: seq<BlockId>, n: nat)
    requires n <= |virt|
    ensures AttachAll(t, block, pred + virt, |pred| + n) ==
            AttachAll(AttachAll(t, block, pred, |pred|), block, virt, n)
  {
    if n == 0 {
      AttachAllPrefix(t, block, pred, virt, |pred|);
    } else {
      AttachAllConcat(t, block, pred, virt, n - 1);
    }
  }

  lemma NextInTree(t: Tree, block: BlockId, ps: seq<BlockId>, n: nat)
    requires t.Rising() && block != t.root && block != 0 && Attached(t, block, ps, 0) && n < |ps|
    ensures AttachAll(t, block, ps, n).Rising() && ps[n] in AttachAll(t, block, ps, n).idom
  {
    AttachAllAttached(t, block, ps, n);
    assert ps[n] in ps;
  }

  lemma NextInFirst(t: Tree, block: BlockId, pred: seq<BlockId>, virt: seq<BlockId>, n: nat)
    requires t.Rising() && block != t.root && block != 0 && Attached(t, block, pred + virt, 0) && n < |pred|
    ensures AttachAll(t, block, pred, n).Rising() && pred[n] in AttachAll(t, block, pred, n).idom
  {
    NextInTree(t, block, pred + virt, n);
    AttachAllPrefix(t, block, pred, virt, n);
  }

  lemma NextInSecond(t: Tree, block: BlockId, pred: seq<BlockId>, virt: seq<BlockId>, n: nat, half: Tree)
    requires t.Rising() && block != t.root && block != 0 && Attached(t, block, pred + virt, 0) && n < |virt|
    requires half == AttachAll(t, block, pred, |pred|)
    ensures AttachAll(half, block, virt, n).Rising() && virt[n] in AttachAll(half, block, virt, n).idom
  {
    var ps := pred + virt;
    var k := |pred| + n;
    assert ps[k] == virt[n];
    NextInTree(t, block, ps, k);
    AttachAllConcat(t, block, pred, virt, n);
    assert AttachAll(half, block, virt, n) == AttachAll(t, block, ps, k);
  }

  /** Two lists can be worked off one after the other when their concatenation can. */
  lemma AttachableParts(t: Tree, block: BlockId, pred: seq<BlockId>, virt: seq<BlockId>, half: Tree)
    requires t.Rising() && block != t.root && block != 0 && Attached(t, block, pred + virt, 0)
    requires half == AttachAll(t, block, pred, |pred|)
    ensures Attachable(t, block, pred) && Attachable(half, block, virt)
  {
    forall n | 0 <= n < |pred|
      ensures AttachAll(t, block, pred, n).Rising() && pred[n] in AttachAll(t, block, pred, n).idom
    {
      NextInFirst(t, block, pred, virt, n);
    }
    forall n | 0 <= n < |virt|
      ensures AttachAll(half, block, virt, n).Rising() && virt[n] in AttachAll(half, block, virt, n).idom
    {
      NextInSecond(t, block, pred, virt, n, half);
    }
  }

  /** The tree once both lists have been worked off. */
  lemma AttachedBoth(t: Tree, block: BlockId, pred: seq<BlockId>, virt: seq<BlockId>, half: Tree, all: Tree)
    requires t.Rising() && block != t.root && block != 0 && Attached(t, block, pred + virt, 0)
    requires half == AttachAll(t, block, pred, |pred|) && all == AttachAll(half, block, virt, |virt|)
    ensures all.Rising() && all.idom - {block} == t.idom - {block}
    ensures all.root == t.root && all.postOrder == t.postOrder
    ensures Attached(all, block, pred + virt, |pred + virt|)
  {
    AttachAllConcat(t, block, pred, virt, |virt|);
    AttachAllAttached(t, block, pred + virt, |pred + virt|);
  }

  // ---------- exactness ----------

  /** The chain of b holds precisely the blocks on every path of g from the root to b. */
  ghost predicate Exact(g: Graph, t: Tree, b: BlockId)
    requires t.Rising() && b in t.idom
  {
    forall x :: x in t.Chain(b) <==> Dominates(g, t.root, x, b)
  }

  lemma ExactRoot(g: Graph, t: Tree)
    requires t.Rising()
    ensures Exact(g, t, t.root)
  {
    forall x ensures x in t.Chain(t.root) <==> Dominates(g, t.root, x, t.root) {
      DominatesRoot(g, t.root, x);
    }
  }

  /** A block attached to all its predecessors is exact when they are. */
  lemma ExactStep(g: Graph, t: Tree, block: BlockId, preds: seq<BlockId>)
    requires t.Rising() && block != t.root && preds != [] && Attached(t, block, preds, |preds|)
    requires forall p :: p in preds ==> Exact(g, t, p)
    requires forall p :: p in preds <==> (p, block) in g
    ensures Exact(g, t, block)
  {
    assert t.ParentOk(block);
    forall x ensures x in t.Chain(block) <==> Dominates(g, t.root, x, block) {
      DominatesStep(g, t.root, x, block);
      CommonMember(t, preds, |preds|, x);
      AllByIndex(t, preds, x);
      assert x in t.Chain(block) <==> x == block || x in Common(t, preds, |preds|);
    }
  }

  lemma AllByIndex(t: Tree, ps: seq<BlockId>, x: BlockId)
    requires t.Rising() && forall p :: p in ps ==> p in t.idom
    ensures (forall i :: 0 <= i < |ps| ==> x in t.Chain(ps[i])) <==> (forall p :: p in ps ==> x in t.Chain(p))
  {
    if forall p :: p in ps ==> x in t.Chain(p) {
      forall i | 0 <= i < |ps| ensures x in t.Chain(ps[i]) {
        assert ps[i] in ps;
      }
    }
  }

  // ---------- the reverse post-order pass ----------

  /** All recorded predecessors of b, the real ones first. */
  ghost function Predecessors(st: State, b: BlockId): seq<BlockId> {
    EdgesOf(st.pred, b) + EdgesOf(st.virt, b)
  }

  ghost predicate IndexedAt(po: seq<BlockId>, i: int) {
    0 <= i < |po| ==> Order(po, po[i]) == i + 1
  }

  /** The number of each block is its position plus one. */
  ghost predicate Indexed(po: seq<BlockId>) {
    forall i :: IndexedAt(po, i)
  }

  /** Predecessors have larger numbers, and only the root, which has the largest, has no real one. */
  ghost predicate Layered(st: State, root: BlockId) {
    && Indexed(st.postOrder) && 0 !in st.postOrder
    && root in st.postOrder && Order(st.postOrder, root) == |st.postOrder|
    && EdgesOf(st.pred, root) == [] && EdgesOf(st.virt, root) == []
    && (forall p, b {:trigger (p, b) in Recorded(st)} :: (p, b) in Recorded(st) ==> Below(st.postOrder, b, p))
    && (forall b :: b in st.postOrder && b != root ==> EdgesOf(st.pred, b) != [])
  }

  lemma FinalLayered(f: Func)
    requires f.WellFormed()
    ensures Layered(Final(f), f.entry)
  {
    FinalInv(f);
    Coverage(f);
    EntryIsLast(f);
    forall p, b | (p, b) in Recorded(Final(f)) ensures Below(Final(f).postOrder, b, p) {
      EdgeClassification(f, p, b);
    }
    forall b | b in Final(f).postOrder && b != f.entry ensures EdgesOf(Final(f).pred, b) != [] {
      EveryBlockHasPredecessor(f, b);
    }
  }

  /** The tree is finished for the blocks numbered above n, and holds no others but the root. */
  ghost predicate BuiltDownTo(st: State, t: Tree, n: nat) {
    && t.postOrder == st.postOrder
    && t.Rising()
    && (forall b :: b in t.idom <==> b in t.postOrder && (Order(t.postOrder, b) > n || b == t.root))
    && (forall b :: b in t.idom ==> Exact(Recorded(st), t, b))
  }

  lemma BuildStart(st: State, root: BlockId)
    requires Layered(st, root)
    ensures BuiltDownTo(st, Tree(root, st.postOrder, map[root := root]), |st.postOrder|)
  {
    var t := Tree(root, st.postOrder, map[root := root]);
    forall b ensures t.ParentOk(b) {}
    ExactRoot(Recorded(st), t);
  }

  /** Every predecessor of the next block is in the tree already; only the root has none. */
  lemma PredecessorsReady(st: State, t: Tree, n: nat, block: BlockId)
    requires Layered(st, t.root) && BuiltDownTo(st, t, n) && 0 < n <= |t.postOrder| && block == t.postOrder[n - 1]
    ensures block != 0 && block in t.postOrder && Order(t.postOrder, block) == n
    ensures Ready(t, block, Predecessors(st, block))
    ensures block != t.root ==> block !in t.idom && Predecessors(st, block) != []
  {
    assert IndexedAt(t.postOrder, n - 1);
    forall p | p in Predecessors(st, block) ensures p in t.idom && Below(t.postOrder, block, p) {
      assert (p, block) in Recorded(st);
    }
  }

  lemma ExactFrame(g: Graph, t: Tree, t': Tree, block: BlockId, c: BlockId)
    requires t.Rising() && t'.Rising() && t.root == t'.root && t.postOrder == t'.postOrder
    requires t.idom - {block} == t'.idom - {block}
    requires c in t.idom && Below(t.postOrder, block, c) && Exact(g, t, c)
    ensures c in t'.idom && Exact(g, t', c)
  {
    ChainFrame(t, t', block, c);
    forall x ensures x in t'.Chain(c) <==> Dominates(g, t.root, x, c) {
      assert x in t.Chain(c) <==> Dominates(g, t.root, x, c);
    }
  }

  /** Attaching the next block to its predecessors, first the real and then the virtual ones, finishes it. */
  lemma BuildStep(st: State, t: Tree, n: nat, block: BlockId, half: Tree, all: Tree)
    requires Layered(st, t.root) && BuiltDownTo(st, t, n) && 0 < n <= |t.postOrder| && block == t.postOrder[n - 1]
    requires half == AttachAll(t, block, EdgesOf(st.pred, block), |EdgesOf(st.pred, block)|)
    requires all == AttachAll(half, block, EdgesOf(st.virt, block), |EdgesOf(st.virt, block)|)
    ensures Attachable(t, block, EdgesOf(st.pred, block)) && Attachable(half, block, EdgesOf(st.virt, block))
    ensures all.root == t.root && BuiltDownTo(st, all, n - 1)
  {
    assert IndexedAt(t.postOrder, n - 1);
    if block == t.root {
      assert all == t;
      NextKeys(t, t, n, block);
    } else {
      BuildStepInner(st, t, n, block, EdgesOf(st.pred, block), EdgesOf(st.virt, block), half, all);
    }
  }

  lemma BuildStepInner(st: State, t: Tree, n: nat, block: BlockId, pred: seq<BlockId>, virt: seq<BlockId>, half: Tree, all: Tree)
    requires Layered(st, t.root) && BuiltDownTo(st, t, n) && 0 < n <= |t.postOrder| && block == t.postOrder[n - 1]
    requires block != t.root && pred == EdgesOf(st.pred, block) && virt == EdgesOf(st.virt, block)
    requires half == AttachAll(t, block, pred, |pred|) && all == AttachAll(half, block, virt, |virt|)
    ensures Attachable(t, block, pred) && Attachable(half, block, virt)
    ensures all.root == t.root && BuiltDownTo(st, all, n - 1)
  {
    PredecessorsReady(st, t, n, block);
    AttachableParts(t, block, pred, virt, half);
    AttachedBoth(t, block, pred, virt, half, all);
    FinishBlock(st, t, all, n, block);
  }

  lemma FinishBlock(st: State, t: Tree, t': Tree, n: nat, block: BlockId)
    requires Layered(st, t.root) && BuiltDownTo(st, t, n) && n > 0 && block != t.root
    requires block in t.postOrder && Order(t.postOrder, block) == n
    requires t'.root == t.root && t'.postOrder == t.postOrder && t'.Rising() && t.idom - {block} == t'.idom - {block}
    requires Predecessors(st, block) != [] && Ready(t, block, Predecessors(st, block))
    requires Attached(t', block, Predecessors(st, block), |Predecessors(st, block)|)
    ensures BuiltDownTo(st, t', n - 1)
  {
    NextKeys(t, t', n, block);
    forall p ensures p in Predecessors(st, block) <==> (p, block) in Recorded(st) {}
    BuildStepExact(Recorded(st), t, t', block, Predecessors(st, block));
  }

  /** The blocks of the tree, when those numbered above n are in it and block is added with number n. */
  lemma NextKeys(t: Tree, t': Tree, n: nat, block: BlockId)
    requires t.Rising() && t'.Rising() && t'.root == t.root && t'.postOrder == t.postOrder
    requires t.idom - {block} == t'.idom - {block} && block in t'.idom && n > 0
    requires block in t.postOrder && Order(t.postOrder, block) == n
    requires forall b :: b in t.idom <==> b in t.postOrder && (Order(t.postOrder, b) > n || b == t.root)
    ensures forall b :: b in t'.idom <==> b in t.postOrder && (Order(t.postOrder, b) > n - 1 || b == t.root)
    ensures block != t.root ==> forall b :: b in t.idom ==> b != block && Below(t.postOrder, block, b)
  {
    forall b ensures b in t'.idom <==> b in t.postOrder && (Order(t.postOrder, b) > n - 1 || b == t.root) {
      assert b in t'.idom - {block} <==> b in t.idom - {block};
      if b in t.postOrder && Order(t.postOrder, b) == n { OrderInjective(t.postOrder, b, block); }
    }
    if block != t.root {
      forall b | b in t.idom ensures b != block && Below(t.postOrder, block, b) {
        assert t.ParentOk(t.root);
        NumberedAbove(t.postOrder, n, block, b, t.root);
      }
    }
  }

  lemma BuildStepExact(g: Graph, t: Tree, t': Tree, block: BlockId, preds: seq<BlockId>)
    requires t.Rising() && t'.Rising() && t'.root == t.root && t'.postOrder == t.postOrder
    requires t.idom - {block} == t'.idom - {block} && block != t.root && preds != []
    requires forall b :: b in t.idom ==> b != block && Below(t.postOrder, block, b) && Exact(g, t, b)
    requires Ready(t, block, preds) && Attached(t', block, preds, |preds|)
    requires forall p :: p in preds <==> (p, block) in g
    ensures block in t'.idom && forall b :: b in t'.idom ==> Exact(g, t', b)
  {
    forall b | b in t.idom ensures b in t'.idom && Exact(g, t', b) {
      ExactFrame(g, t, t', block, b);
    }
    ExactStep(g, t', block, preds);
    forall b | b in t'.idom ensures Exact(g, t', b) {
      assert b == block || b in t.idom - {block} by { assert b == block || b in t'.idom - {block}; }
    }
  }

  lemma NumberedAbove(po: seq<BlockId>, n: nat, block: BlockId, b: BlockId, last: BlockId)
    requires block in po && Order(po, block) == n && block != last
    requires last in po && Order(po, last) == |po|
    requires b in po && (Order(po, b) > n || b == last)
    ensures Below(po, block, b)
  {
    if Order(po, block) == |po| { OrderInjective(po, block, last); }
  }

  // ---------- the finished tree ----------

  /** The tree after working off one block: its real predecessors, then its virtual ones. */
  ghost function AttachBlock(st: State, t: Tree, block: BlockId): Tree {
    AttachAll(AttachAll(t, block, EdgesOf(st.pred, block), |EdgesOf(st.pred, block)|),
              block, EdgesOf(st.virt, block), |EdgesOf(st.virt, block)|)
  }

  /** The tree after the pass over the reversed post order has reached position n. */
  ghost function PassTree(st: State, root: BlockId, n: nat): Tree
    requires n <= |st.postOrder|
    decreases |st.postOrder| - n
  {
    if n == |st.postOrder| then Tree(root, st.postOrder, map[root := root])
    else AttachBlock(st, PassTree(st, root, n + 1), st.postOrder[n])
  }

  /** At position n, the pass only ever asks for common dominators of blocks in a sound tree. */
  ghost predicate PassOk(st: State, root: BlockId, n: nat)
    requires n < |st.postOrder|
  {
    var t, block := PassTree(st, root, n + 1), st.postOrder[n];
    && Attachable(t, block, EdgesOf(st.pred, block))
    && Attachable(AttachAll(t, block, EdgesOf(st.pred, block), |EdgesOf(st.pred, block)|), block, EdgesOf(st.virt, block))
  }

  lemma {:induction false} PassBuilds(st: State, root: BlockId, n: nat)
    requires Layered(st, root) && n <= |st.postOrder|
    ensures PassTree(st, root, n).root == root && BuiltDownTo(st, PassTree(st, root, n), n)
    ensures n < |st.postOrder| ==> PassOk(st, root, n)
    decreases |st.postOrder| - n
  {
    if n == |st.postOrder| {
      BuildStart(st, root);
    } else {
      var t, block := PassTree(st, root, n + 1), st.postOrder[n];
      PassBuilds(st, root, n + 1);
      var half := AttachAll(t, block, EdgesOf(st.pred, block), |EdgesOf(st.pred, block)|);
      BuildStep(st, t, n + 1, block, half, AttachBlock(st, t, block));
    }
  }

  /** t is the dominator tree of f: it holds exactly the visited blocks, and is exact over the recorded edges. */
  ghost predicate IsDominatorTree(f: Func, t: Tree)
    requires f.WellFormed()
  {
    && t.root == f.entry
    && t.postOrder == Final(f).postOrder
    && t.Rising()
    && (forall b :: b in t.idom <==> b in t.postOrder)
    && (forall b :: b in t.idom ==> Exact(Recorded(Final(f)), t, b))
  }

  /** What the pass computes for a function. */
  ghost function Dominators(f: Func): Tree
    requires f.WellFormed()
  {
    PassTree(Final(f), f.entry, 0)
  }

  /** One pass over the reversed post order yields the dominator tree. */
  lemma OnePassSuffices(f: Func)
    requires f.WellFormed()
    ensures IsDominatorTree(f, Dominators(f))
  {
    FinalLayered(f);
    PassBuilds(Final(f), f.entry, 0);
  }

  lemma PassNeverFails(f: Func)
    requires f.WellFormed()
    ensures forall n :: 0 <= n < |Final(f).postOrder| ==> PassOk(Final(f), f.entry, n)
  {
    FinalLayered(f);
    forall n | 0 <= n < |Final(f).postOrder| ensures PassOk(Final(f), f.entry, n) {
      PassBuilds(Final(f), f.entry, n);
    }
  }

  lemma ExactChains(g: Graph, t: Tree, t': Tree, b: BlockId)
    requires t.Rising() && t'.Rising() && t.root == t'.root && b in t.idom && b in t'.idom
    requires Exact(g, t, b) && Exact(g, t', b)
    ensures t.Chain(b) == t'.Chain(b)
  {
    forall x ensures x in t.Chain(b) <==> x in t'.Chain(b) {
      assert x in t.Chain(b) <==> Dominates(g, t.root, x, b);
    }
  }

  /** There is only one such tree. */
  lemma DominatorTreeUnique(f: Func, t: Tree, t': Tree)
    requires f.WellFormed() && IsDominatorTree(f, t) && IsDominatorTree(f, t')
    ensures t == t'
  {
    forall b | b in t.idom ensures t.idom[b] == t'.idom[b] {
      if b != t.root { SameParent(Recorded(Final(f)), t, t', b); }
    }
    assert t.idom == t'.idom;
  }

  lemma ParentChain(t: Tree, b: BlockId)
    requires t.Rising() && b in t.idom && b != t.root
    ensures t.idom[b] in t.idom && t.Chain(t.idom[b]) == t.Chain(b) - {b}
  {
    assert t.ParentOk(b);
  }

  lemma SameParent(g: Graph, t: Tree, t': Tree, b: BlockId)
    requires t.Rising() && t'.Rising() && t.root == t'.root && t.idom.Keys == t'.idom.Keys
    requires b in t.idom && b != t.root
    requires forall x :: x in t.idom ==> Exact(g, t, x) && Exact(g, t', x)
    ensures t.idom[b] == t'.idom[b]
  {
    var p, p' := t.idom[b], t'.idom[b];
    ParentChain(t, b);
    ParentChain(t', b);
    ExactChains(g, t, t', b);
    ExactChains(g, t, t', p');
    ChainInjective(t, p, p');
  }

  /** The immediate dominator of b is the closest block that strictly dominates b. */
  lemma ImmediateDominatorIsClosest(f: Func, t: Tree, b: BlockId, x: BlockId)
    requires f.WellFormed() && IsDominatorTree(f, t) && b in t.idom && b != f.entry
    ensures t.idom[b] != b && Dominates(Recorded(Final(f)), f.entry, t.idom[b], b)
    ensures x != b && Dominates(Recorded(Final(f)), f.entry, x, b) ==>
              Dominates(Recorded(Final(f)), f.entry, x, t.idom[b])
  {
    assert t.ParentOk(b);
    assert Exact(Recorded(Final(f)), t, b) && Exact(Recorded(Final(f)), t, t.idom[b]);
    assert t.idom[b] in t.Chain(b);
  }

  /** Every visited block is reached over recorded real edges, so that dominance is never vacuous. */
  lemma {:induction false} VisitedReached(f: Func, b: BlockId)
    requires f.WellFormed() && b in Final(f).postOrder
    ensures Reaches(Real(Final(f)), f.entry, b)
    decreases |Final(f).postOrder| - Order(Final(f).postOrder, b)
  {
    if b == f.entry {
      Trivial(Real(Final(f)), b);
    } else {
      EveryBlockHasPredecessor(f, b);
      var u :| (u, b) in Real(Final(f)) && Below(Final(f).postOrder, b, u);
      VisitedReached(f, u);
      ReachesStep(Real(Final(f)), f.entry, u, b);
    }
  }
}
