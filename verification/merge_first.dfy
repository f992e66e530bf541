/** Children are visited in order, the merge block first, so that what follows a loop is numbered below what is inside it. */
module MergeFirst {
  import opened Blocks
  import opened Paths
  import opened Traversal
  import opened TraversalInvariant
  import opened TraversalResults

  /** x is reachable, but only through h, and not from any of the first n children of h. */
  ghost predicate Inside(f: Func, h: BlockId, n: nat, x: BlockId)
    requires h in f.blocks && n <= |f.blocks[h].Children()|
  {
    && x != h
    && Reaches(Flow(f), f.entry, x)
    && Dominates(Flow(f), f.entry, h, x)
    && forall i :: 0 <= i < n ==> !Reaches(Flow(f), f.blocks[h].Children()[i], x)
  }

  /** If child k of h is numbered below h, all blocks that h dominates and that no child up to it reaches are between the two. */
  ghost predicate Between(f: Func, po: seq<BlockId>, h: BlockId, k: nat)
    requires h in f.blocks && k < |f.blocks[h].Children()|
  {
    var c := f.blocks[h].Children()[k];
    Below(po, c, h) ==> forall x :: Inside(f, h, k + 1, x) ==> Below(po, c, x) && Below(po, x, h)
  }

  lemma BelowPrefix(po: seq<BlockId>, longer: seq<BlockId>, v: BlockId, u: BlockId)
    requires po <= longer && NoDup(longer)
    ensures Below(po, v, u) ==> Below(longer, v, u)
    ensures u in po && Below(longer, v, u) ==> Below(po, v, u)
  {
    if v in longer { OrderPrefix(po, longer, v); }
    if u in longer { OrderPrefix(po, longer, u); }
  }

  lemma BetweenStays(f: Func, po: seq<BlockId>, longer: seq<BlockId>, h: BlockId, k: nat)
    requires h in f.blocks && k < |f.blocks[h].Children()|
    requires h in po && po <= longer && NoDup(longer) && Between(f, po, h, k)
    ensures Between(f, longer, h, k)
  {
    var c := f.blocks[h].Children()[k];
    if Below(longer, c, h) {
      BelowPrefix(po, longer, c, h);
      forall x | Inside(f, h, k + 1, x) ensures Below(longer, c, x) && Below(longer, x, h) {
        BelowPrefix(po, longer, c, x);
        BelowPrefix(po, longer, x, h);
      }
    }
  }

  /** Removes from p everything before the last occurrence of h. */
  lemma {:induction false} LastPart(g: Graph, root: BlockId, h: BlockId, x: BlockId, p: seq<BlockId>) returns (q: seq<BlockId>)
    requires Joins(g, root, x, p) && h in p
    ensures Joins(g, h, x, q) && h !in q[1..]
    decreases |p|
  {
    if p[0] == h && h !in p[1..] {
      q := p;
    } else {
      Suffix(g, p, 1);
      q := LastPart(g, p[1], h, x, p[1..]);
    }
  }

  lemma DominatorOnFirstPart(g: Graph, root: BlockId, h: BlockId, y: BlockId, x: BlockId, p: seq<BlockId>, q: seq<BlockId>)
    requires Dominates(g, root, h, x) && Joins(g, root, y, p) && Joins(g, y, x, q) && h !in q
    ensures h in p
  {
    Concat(g, root, y, x, p, q);
    assert h in p + q[1..];
  }

  /** Blocks that h dominates have not been visited when the search from h starts. */
  lemma DominatedUnvisited(f: Func, st: State, h: BlockId, y: BlockId, x: BlockId, q: seq<BlockId>)
    requires Rooted(f, st) && h !in st.visited && Dominates(Flow(f), f.entry, h, x)
    requires Joins(Flow(f), y, x, q) && h !in q
    ensures y !in st.visited
  {
    if y in st.visited {
      assert Arrives(f, st, y);
      var p :| Arrival(f, st, y, p);
      DominatorOnFirstPart(Flow(f), f.entry, h, y, x, p, q);
    }
  }

  /** A search from h reaches all that h dominates, as long as it closes all that it visits. */
  lemma {:induction false} DominatedVisited(f: Func, st: State, later: State, h: BlockId, x: BlockId, q: seq<BlockId>, n: nat)
    requires Rooted(f, st) && h !in st.visited && Dominates(Flow(f), f.entry, h, x)
    requires Joins(Flow(f), h, x, q) && h !in q[1..] && n < |q|
    requires h in later.visited
    requires forall u, c {:trigger (u, c) in Flow(f)} ::
               u in later.visited && u !in st.visited && (u, c) in Flow(f) ==> c in later.visited
    ensures q[n] in later.visited && q[n] !in st.visited
    decreases n
  {
    if n > 0 {
      DominatedVisited(f, st, later, h, x, q, n - 1);
      assert (q[n - 1], q[n]) in Flow(f);
      Suffix(Flow(f), q, n);
      assert forall z :: z in q[n..] ==> z in q[1..];
      DominatedUnvisited(f, st, h, q[n], x, q[n..]);
    }
  }

  /** What is visited in a search from h, but not already numbered, is closed under flow edges when h resolves. */
  lemma SearchedClosed(f: Func, st: State, h: BlockId)
    requires f.WellFormed() && h in f.blocks && h !in st.visited && Inv(f, st)
    ensures forall u, c {:trigger (u, c) in Flow(f)} ::
              u in Searched(f, st, h).visited && u !in st.visited && (u, c) in Flow(f) ==> c in Searched(f, st, h).visited
    ensures forall u :: u in Searched(f, st, h).visited && u !in st.visited && u != h ==> u in Searched(f, st, h).postOrder
  {
    var searched := Searched(f, st, h);
    SearchedKeepsInv(f, st, h);
    forall u | u in searched.visited && u !in st.visited && u != h ensures u in searched.postOrder {
      assert !st.Mark(h).OnStack(u);
    }
    forall u, c | u in searched.visited && u !in st.visited && (u, c) in Flow(f) ensures c in searched.visited {
      if u == h { SearchedVisits(f, st, h, c); }
    }
  }

  lemma InsideVisited(f: Func, st: State, h: BlockId, x: BlockId)
    requires f.WellFormed() && h in f.blocks && h !in st.visited && Inv(f, st) && Rooted(f, st)
    requires x != h && Reaches(Flow(f), f.entry, x) && Dominates(Flow(f), f.entry, h, x)
    ensures x in Searched(f, st, h).postOrder && x !in st.visited
  {
    SearchedClosed(f, st, h);
    var p :| Joins(Flow(f), f.entry, x, p);
    var q := LastPart(Flow(f), f.entry, h, x, p);
    DominatedVisited(f, st, Searched(f, st, h), h, x, q, |q| - 1);
  }

  /** What the search of the first n children visits is reachable from one of them. */
  lemma {:induction false} ReachedFromChild(f: Func, st: State, cs: seq<BlockId>, n: nat, x: BlockId)
    requires f.WellFormed() && n <= |cs| && AllBlocks(f, cs)
    requires x in DfsAll(f, st, cs, n).visited && x !in st.visited
    ensures exists i :: 0 <= i < n && Reaches(Flow(f), cs[i], x)
    decreases n
  {
    var before := DfsAll(f, st, cs, n - 1);
    assert cs[n - 1] in cs;
    if x in before.visited {
      ReachedFromChild(f, st, cs, n - 1, x);
    } else {
      DfsReaches(f, before, cs[n - 1], x);
    }
  }

  lemma NumberedEarlier(f: Func, mid: State, later: State, c: BlockId)
    requires Inv(f, mid) && Extends(mid, later) && c in mid.visited && c in later.postOrder
    ensures c in mid.postOrder
  {
    assert mid.OnStack(c) <==> later.OnStack(c);
  }

  /** The blocks numbered by the time that child k has been searched. */
  lemma ChildNumbered(f: Func, marked: State, cs: seq<BlockId>, k: nat, mid: State, searched: State)
    requires f.WellFormed() && k < |cs| && AllBlocks(f, cs) && Inv(f, marked)
    requires cs[k] in searched.postOrder && mid == DfsAll(f, marked, cs, k + 1) && searched == DfsAll(f, marked, cs, |cs|)
    ensures mid.postOrder <= searched.postOrder
    ensures forall x :: x in mid.postOrder ==> x in mid.visited
    ensures cs[k] in mid.postOrder
  {
    DfsAllExtends(f, marked, cs, k + 1, mid, |cs|, searched);
    DfsAllKeepsInv(f, marked, cs, k + 1);
    DfsAllVisits(f, marked, cs, k + 1, k);
    NumberedEarlier(f, mid, searched, cs[k]);
  }

  /** Child k of h is numbered before x is visited. */
  lemma ChildBeforeInside(f: Func, st: State, h: BlockId, k: nat, x: BlockId)
    requires f.WellFormed() && h in f.blocks && h !in st.visited && Inv(f, st) && k < |f.blocks[h].Children()|
    requires f.blocks[h].Children()[k] in Searched(f, st, h).postOrder
    requires x in Searched(f, st, h).postOrder && x !in st.visited && x != h
    requires forall i :: 0 <= i <= k ==> !Reaches(Flow(f), f.blocks[h].Children()[i], x)
    ensures Below(Searched(f, st, h).postOrder, f.blocks[h].Children()[k], x)
  {
    var cs, marked, searched := f.blocks[h].Children(), st.Mark(h), Searched(f, st, h);
    var mid := DfsAll(f, marked, cs, k + 1);
    SearchedKeepsInv(f, st, h);
    MarkKeepsInv(f, st, h);
    ChildNumbered(f, marked, cs, k, mid, searched);
    if x in mid.visited { ReachedFromChild(f, marked, cs, k + 1, x); }
    OrderPrefix(mid.postOrder, searched.postOrder, cs[k]);
    OrderPrefix(mid.postOrder, searched.postOrder, x);
  }

  lemma BetweenAtResolve(f: Func, st: State, h: BlockId, k: nat)
    requires f.WellFormed() && h in f.blocks && h !in st.visited && Inv(f, st) && Rooted(f, st)
    requires k < |f.blocks[h].Children()|
    ensures Between(f, Dfs(f, st, h).postOrder, h, k)
  {
    var c, po := f.blocks[h].Children()[k], Searched(f, st, h).postOrder;
    SearchedKeepsInv(f, st, h);
    DfsKeepsInv(f, st, h);
    if Below(po + [h], c, h) {
      BelowSnoc(po, h, c, h);
      forall x | Inside(f, h, k + 1, x) ensures Below(po + [h], c, x) && Below(po + [h], x, h) {
        InsideVisited(f, st, h, x);
        ChildBeforeInside(f, st, h, k, x);
        BelowSnoc(po, h, c, x);
        BelowSnoc(po, h, x, h);
      }
    }
  }

  lemma {:induction false} DfsBetween(f: Func, st: State, b: BlockId, h: BlockId, k: nat)
    requires f.WellFormed() && b in f.blocks && b !in st.visited
    requires Inv(f, st) && Rooted(f, st) && Arrives(f, st, b)
    requires h in f.blocks && k < |f.blocks[h].Children()| && h in Dfs(f, st, b).postOrder && h !in st.postOrder
    ensures Between(f, Dfs(f, st, b).postOrder, h, k)
    decreases f.blocks.Keys - st.visited, 0, 1
  {
    if h == b {
      BetweenAtResolve(f, st, b, k);
    } else {
      var cs := f.blocks[b].Children();
      MarkKeepsInv(f, st, b);
      MarkRooted(f, st, b);
      DfsKeepsInv(f, st, b);
      DfsAllBetween(f, st.Mark(b), b, |cs|, Searched(f, st, b), h, k);
      BetweenStays(f, Searched(f, st, b).postOrder, Dfs(f, st, b).postOrder, h, k);
    }
  }

  lemma {:induction false} DfsAllBetween(f: Func, st: State, u: BlockId, n: nat, r: State, h: BlockId, k: nat)
    requires f.WellFormed() && u in f.blocks && u in st.visited && Inv(f, st) && Rooted(f, st)
    requires n <= |f.blocks[u].Children()| && r == DfsAll(f, st, f.blocks[u].Children(), n)
    requires h in f.blocks && k < |f.blocks[h].Children()| && h in r.postOrder && h !in st.postOrder
    ensures Between(f, r.postOrder, h, k)
    decreases f.blocks.Keys - st.visited, n
  {
    var before := BeforeNext(f, st, u, n, r);
    if h in before.postOrder {
      DfsAllBetween(f, st, u, n - 1, before, h, k);
    }
    DfsNextBetween(f, before, u, f.blocks[u].Children()[n - 1], r, h, k);
  }

  /** The state before the search from the last of n children. */
  lemma BeforeNext(f: Func, st: State, u: BlockId, n: nat, r: State) returns (before: State)
    requires f.WellFormed() && u in f.blocks && u in st.visited && Inv(f, st) && Rooted(f, st)
    requires 0 < n <= |f.blocks[u].Children()| && r == DfsAll(f, st, f.blocks[u].Children(), n)
    ensures before == DfsAll(f, st, f.blocks[u].Children(), n - 1)
    ensures st.visited <= before.visited && Inv(f, before) && Rooted(f, before)
    ensures var c := f.blocks[u].Children()[n - 1]; r == if c in before.visited then before else Dfs(f, before, c)
  {
    var cs := f.blocks[u].Children();
    before := DfsAll(f, st, cs, n - 1);
    DfsAllStep(f, st, cs, n, before, r);
    DfsAllKeepsInv(f, st, cs, n - 1);
    DfsAllRooted(f, st, u, n - 1);
  }

  lemma {:induction false} DfsNextBetween(f: Func, before: State, u: BlockId, c: BlockId, r: State, h: BlockId, k: nat)
    requires f.WellFormed() && u in f.blocks && u in before.visited && Inv(f, before) && Rooted(f, before)
    requires c in f.blocks[u].Children()
    requires r == if c in before.visited then before else Dfs(f, before, c)
    requires h in f.blocks && k < |f.blocks[h].Children()| && h in r.postOrder && (h in before.postOrder ==> Between(f, before.postOrder, h, k))
    ensures Between(f, r.postOrder, h, k)
    decreases f.blocks.Keys - before.visited, 0, 2
  {
    if c !in before.visited {
      if h in before.postOrder {
        DfsKeepsInv(f, before, c);
        BetweenStays(f, before.postOrder, r.postOrder, h, k);
      } else {
        ArrivesChild(f, before, u, c);
        DfsBetween(f, before, c, h, k);
      }
    }
  }

  /**
    Children are visited in order: a block that h strictly dominates and that none of the first children of h reaches, up
    to child k, is numbered above child k and below h.
   */
  lemma EarlierChildFirst(f: Func, h: BlockId, k: nat, x: BlockId)
    requires f.WellFormed() && h in f.blocks && k < |f.blocks[h].Children()|
    requires Below(Final(f).postOrder, f.blocks[h].Children()[k], h) && Inside(f, h, k + 1, x)
    ensures Below(Final(f).postOrder, f.blocks[h].Children()[k], x) && Below(Final(f).postOrder, x, h)
  {
    StartOk(f);
    DfsBetween(f, Start, f.entry, h, k);
  }

  /**
    For a visited loop header whose merge block has a lower number: every visited block that the header strictly
    dominates, and that the merge block does not reach, is numbered strictly between the two.
   */
  lemma MergeVisitedFirst(f: Func, h: BlockId, x: BlockId)
    requires f.WellFormed() && h in f.blocks && f.blocks[h].merge.MergeLoop?
    requires Below(Final(f).postOrder, f.blocks[h].mergeBlock, h)
    requires x != h && Reaches(Flow(f), f.entry, x) && Dominates(Flow(f), f.entry, h, x)
    requires !Reaches(Flow(f), f.blocks[h].mergeBlock, x)
    ensures Below(Final(f).postOrder, f.blocks[h].mergeBlock, x) && Below(Final(f).postOrder, x, h)
  {
    assert f.blocks[h].Children()[0] == f.blocks[h].mergeBlock;
    EarlierChildFirst(f, h, 0, x);
  }

  /** The true side of a conditional branch is numbered below its false side, unless one of them, or the merge block, gets there first. */
  lemma TrueSideNumberedFirst(f: Func, h: BlockId)
    requires f.WellFormed() && h in f.blocks && f.blocks[h].terminator.Select?
    requires Below(Final(f).postOrder, f.blocks[h].trueBlock, h)
    requires var x := f.blocks[h].falseBlock;
             && x != h && Dominates(Flow(f), f.entry, h, x) && !Reaches(Flow(f), f.blocks[h].trueBlock, x)
             && (f.blocks[h].merge.MergeLoop? ==> !Reaches(Flow(f), f.blocks[h].mergeBlock, x))
             && (f.blocks[h].merge.MergeSelection? ==> !Reaches(Flow(f), f.blocks[h].nextBlock, x))
    ensures Below(Final(f).postOrder, f.blocks[h].trueBlock, f.blocks[h].falseBlock)
    ensures Below(Final(f).postOrder, f.blocks[h].falseBlock, h)
  {
    var k, cs := if f.blocks[h].merge.MergeNone? then 0 else 1, f.blocks[h].Children();
    assert cs[k] == f.blocks[h].trueBlock && cs[k + 1] == f.blocks[h].falseBlock;
    EdgeClassification(f, h, cs[k + 1]);
    Coverage(f);
    EarlierChildFirst(f, h, k, cs[k + 1]);
  }
}
