/** Why working off an explicit stack, with batches pushed in reverse, is the recursive search. */
module StackRefinement {
  import opened Blocks
  import opened Traversal

  function Reversed(s: seq<BlockId>): (r: seq<BlockId>)
    ensures |r| == |s| && (forall x :: x in r <==> x in s)
    ensures s != [] ==> r[|r| - 1] == s[0]
  {
    if s == [] then []
    else
      assert s == [s[0]] + s[1..];
      Reversed(s[1..]) + [s[0]]
  }

  ghost predicate NumberedVisited(st: State) {
    forall b :: b in st.postOrder ==> b in st.visited
  }

  /** The state that is left when every block of the stack, the top first, has been searched if new and resolved if not. */
  ghost function Drain(f: Func, st: State, stack: seq<BlockId>): State
    requires f.WellFormed() && AllBlocks(f, stack)
    decreases f.blocks.Keys - st.visited, |stack|
  {
    if stack == [] then st
    else
      var top, rest := stack[|stack| - 1], stack[..|stack| - 1];
      if top in st.visited then
        LinkKeeps(st, top, f.blocks[top]);
        Drain(f, st.Resolve(top, f.blocks[top]), rest)
      else
        Drain(f, Dfs(f, st, top), rest)
  }

  lemma DrainVisited(f: Func, st: State, stack: seq<BlockId>)
    requires f.WellFormed() && AllBlocks(f, stack) && stack != [] && stack[|stack| - 1] in st.visited
    ensures AllBlocks(f, stack[..|stack| - 1])
    ensures Drain(f, st, stack) ==
            Drain(f, st.Resolve(stack[|stack| - 1], f.blocks[stack[|stack| - 1]]), stack[..|stack| - 1])
  {
  }

  /** A search leaves on the DFS stack what was there before. */
  lemma {:induction false} DfsKeepsStack(f: Func, st: State, b: BlockId)
    requires f.WellFormed() && b in f.blocks && b !in st.visited && NumberedVisited(st)
    ensures NumberedVisited(Dfs(f, st, b))
    ensures forall x :: st.OnStack(x) <==> Dfs(f, st, b).OnStack(x)
    decreases f.blocks.Keys - st.visited, 0
  {
    var cs := f.blocks[b].Children();
    var marked, searched := st.Mark(b), Searched(f, st, b);
    DfsAllKeepsStack(f, marked, cs, |cs|);
    LinkKeeps(searched, b, f.blocks[b]);
    assert marked.OnStack(b);
    forall x ensures st.OnStack(x) <==> Dfs(f, st, b).OnStack(x) {
      assert marked.OnStack(x) <==> searched.OnStack(x);
    }
  }

  lemma {:induction false} DfsAllKeepsStack(f: Func, st: State, cs: seq<BlockId>, n: nat)
    requires f.WellFormed() && n <= |cs| && AllBlocks(f, cs) && NumberedVisited(st)
    ensures NumberedVisited(DfsAll(f, st, cs, n))
    ensures forall x :: st.OnStack(x) <==> DfsAll(f, st, cs, n).OnStack(x)
    decreases f.blocks.Keys - st.visited, n
  {
    if n > 0 {
      var before := DfsAll(f, st, cs, n - 1);
      DfsAllKeepsStack(f, st, cs, n - 1);
      if cs[n - 1] !in before.visited {
        DfsKeepsStack(f, before, cs[n - 1]);
        forall x ensures st.OnStack(x) <==> DfsAll(f, st, cs, n).OnStack(x) {
          assert st.OnStack(x) <==> before.OnStack(x);
        }
      }
    }
  }

  /** Working off one child c that is not on the DFS stack. */
  lemma DrainChild(f: Func, st: State, rest: seq<BlockId>, c: BlockId)
    requires f.WellFormed() && AllBlocks(f, rest) && c in f.blocks && !st.OnStack(c)
    ensures Drain(f, st, rest + [c]) == Drain(f, if c in st.visited then st else Dfs(f, st, c), rest)
  {
    assert (rest + [c])[..|rest|] == rest;
  }

  /** Draining a reversed batch that lies on top of the stack searches the batch in order. */
  lemma {:induction false} DrainBatch(f: Func, st: State, stack: seq<BlockId>, batch: seq<BlockId>, n: nat)
    requires f.WellFormed() && AllBlocks(f, stack) && AllBlocks(f, batch) && NumberedVisited(st) && n <= |batch|
    requires forall c :: c in batch ==> !st.OnStack(c)
    ensures AllBlocks(f, stack + Reversed(batch)) && AllBlocks(f, stack + Reversed(batch[n..]))
    ensures Drain(f, st, stack + Reversed(batch)) == Drain(f, DfsAll(f, st, batch, n), stack + Reversed(batch[n..]))
    decreases n
  {
    if n == 0 {
      assert batch[n..] == batch;
    } else {
      var before := DfsAll(f, st, batch, n - 1);
      DrainBatch(f, st, stack, batch, n - 1);
      DfsAllKeepsStack(f, st, batch, n - 1);
      var rest := stack + Reversed(batch[n..]);
      assert batch[n - 1..][1..] == batch[n..];
      assert stack + Reversed(batch[n - 1..]) == rest + [batch[n - 1]];
      DrainChild(f, before, rest, batch[n - 1]);
    }
  }

  /** The pruned batch stands for the first n blocks of cs. */
  ghost predicate Batched(f: Func, st: State, batch: seq<BlockId>, cs: seq<BlockId>, n: nat)
    requires f.WellFormed()
  {
    && n <= |cs|
    && AllBlocks(f, batch) && AllBlocks(f, cs)
    && (forall c :: c in batch ==> c !in st.visited)
    && DfsAll(f, st, batch, |batch|) == DfsAll(f, st, cs, n)
  }

  function Pruned(visited: set<BlockId>, batch: seq<BlockId>, c: BlockId): seq<BlockId> {
    if c in batch || c in visited then batch else batch + [c]
  }

  /** The first n blocks of cs without duplicates and without visited blocks. */
  function PrunedAll(visited: set<BlockId>, cs: seq<BlockId>, n: nat): seq<BlockId>
    requires n <= |cs|
  {
    if n == 0 then [] else Pruned(visited, PrunedAll(visited, cs, n - 1), cs[n - 1])
  }

  lemma {:induction false} DfsAllAppend(f: Func, st: State, cs: seq<BlockId>, c: BlockId, n: nat)
    requires f.WellFormed() && n <= |cs| && AllBlocks(f, cs) && c in f.blocks
    ensures DfsAll(f, st, cs + [c], n) == DfsAll(f, st, cs, n)
  {
    if n > 0 {
      DfsAllAppend(f, st, cs, c, n - 1);
      assert (cs + [c])[n - 1] == cs[n - 1];
    }
  }

  /** Leaving out a child that is in the batch already, or visited already, changes nothing. */
  lemma PruneKeepsBatch(f: Func, st: State, batch: seq<BlockId>, cs: seq<BlockId>, n: nat)
    requires f.WellFormed() && n < |cs| && Batched(f, st, batch, cs, n) && cs[n] in f.blocks
    ensures Batched(f, st, Pruned(st.visited, batch, cs[n]), cs, n + 1)
  {
    var c := cs[n];
    var done := DfsAll(f, st, cs, n);
    if c in batch {
      var i :| 0 <= i < |batch| && batch[i] == c;
      DfsAllVisits(f, st, batch, |batch|, i);
      assert DfsAll(f, st, cs, n + 1) == done;
    } else if c !in st.visited {
      DfsAllAppend(f, st, batch, c, |batch|);
      assert DfsAll(f, st, batch + [c], |batch| + 1) == if c in done.visited then done else Dfs(f, done, c);
    }
  }

  lemma {:induction false} PrunedIsBatched(f: Func, st: State, cs: seq<BlockId>, n: nat)
    requires f.WellFormed() && n <= |cs| && AllBlocks(f, cs)
    ensures Batched(f, st, PrunedAll(st.visited, cs, n), cs, n)
  {
    if n > 0 {
      assert cs[n - 1] in cs;
      PrunedIsBatched(f, st, cs, n - 1);
      PruneKeepsBatch(f, st, PrunedAll(st.visited, cs, n - 1), cs, n - 1);
    }
  }

  /** Marking the top of the stack and pushing its batch leaves the outcome unchanged. */
  lemma {:induction false} PushKeepsOutcome(f: Func, st: State, stack: seq<BlockId>, top: BlockId, batch: seq<BlockId>)
    requires f.WellFormed() && AllBlocks(f, stack) && NumberedVisited(st)
    requires stack != [] && stack[|stack| - 1] == top && top !in st.visited
    requires batch == PrunedAll(st.Mark(top).visited, f.blocks[top].Children(), |f.blocks[top].Children()|)
    ensures AllBlocks(f, stack + Reversed(batch))
    ensures Drain(f, st.Mark(top), stack + Reversed(batch)) == Drain(f, st, stack)
    ensures forall c :: c in batch ==> c !in st.Mark(top).visited
  {
    var cs := f.blocks[top].Children();
    var searched := Searched(f, st, top);
    PrunedIsBatched(f, st.Mark(top), cs, |cs|);
    DrainBatch(f, st.Mark(top), stack, batch, |batch|);
    assert stack + Reversed(batch[|batch|..]) == stack;
    assert Drain(f, searched, stack) == Drain(f, searched.Resolve(top, f.blocks[top]), stack[..|stack| - 1]);
  }
}
