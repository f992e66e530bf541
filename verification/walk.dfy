/** The predicate-guarded forward walk. */
module Walk {
  import opened Blocks
  import opened Paths
  import opened Traversal
  import opened TraversalInvariant
  import opened TraversalResults

  /** The edges that the walk may follow: out of blocks that satisfy op, into blocks not seen before the walk. */
  ghost function Followed(succ: EdgeMap, op: BlockId -> bool, seen: set<BlockId>): Graph {
    iset e: (BlockId, BlockId) | e.1 in EdgesOf(succ, e.0) && op(e.0) && e.1 !in seen
  }

  /** What a walk from block must add to the blocks seen before. */
  ghost predicate Walked(succ: EdgeMap, op: BlockId -> bool, seen: set<BlockId>, block: BlockId, visited: set<BlockId>) {
    forall x :: x in visited <==> block !in seen && Reaches(Followed(succ, op, seen), block, x)
  }

  /** Every block of visited that satisfies op has all its successors seen. */
  ghost predicate Closed(succ: EdgeMap, op: BlockId -> bool, seen: set<BlockId>, visited: set<BlockId>) {
    forall x, y {:trigger y in EdgesOf(succ, x)} ::
      x in visited && op(x) && y in EdgesOf(succ, x) ==> y in seen || y in visited
  }

  ghost predicate AllReached(succ: EdgeMap, op: BlockId -> bool, seen: set<BlockId>, block: BlockId, visited: set<BlockId>) {
    forall x :: x in visited ==> x !in seen && Reaches(Followed(succ, op, seen), block, x)
  }

  /** A path in a graph with fewer forbidden blocks. */
  lemma ReachesMore(succ: EdgeMap, op: BlockId -> bool, seen: set<BlockId>, more: set<BlockId>, a: BlockId, x: BlockId)
    requires seen <= more && Reaches(Followed(succ, op, more), a, x)
    ensures Reaches(Followed(succ, op, seen), a, x)
  {
    var p :| Joins(Followed(succ, op, more), a, x, p);
    forall i | 0 <= i < |p| - 1 ensures (p[i], p[i + 1]) in Followed(succ, op, seen) {
      assert (p[i], p[i + 1]) in Followed(succ, op, more);
    }
    assert Joins(Followed(succ, op, seen), a, x, p);
  }

  /** What is reached from a successor of block, avoiding more blocks, is reached from block. */
  lemma ReachedBySuccessor(succ: EdgeMap, op: BlockId -> bool, seen: set<BlockId>, more: set<BlockId>,
                           block: BlockId, b: BlockId, visited: set<BlockId>)
    requires seen <= more && op(block) && b in EdgesOf(succ, block)
    requires AllReached(succ, op, more, b, visited) && (visited != {} ==> b !in more)
    ensures AllReached(succ, op, seen, block, visited)
  {
    forall x | x in visited ensures x !in seen && Reaches(Followed(succ, op, seen), block, x) {
      ReachesMore(succ, op, seen, more, b, x);
      Trivial(Followed(succ, op, seen), block);
      ReachesStep(Followed(succ, op, seen), block, block, b);
      ReachesTrans(Followed(succ, op, seen), block, b, x);
    }
  }

  /** Sound and closed means exact. */
  lemma ClosedIsWalked(succ: EdgeMap, op: BlockId -> bool, seen: set<BlockId>, block: BlockId, visited: set<BlockId>)
    requires block !in seen && block in visited
    requires Closed(succ, op, seen, visited) && AllReached(succ, op, seen, block, visited)
    ensures Walked(succ, op, seen, block, visited)
  {
    var g := Followed(succ, op, seen);
    forall x | Reaches(g, block, x) ensures x in visited {
      var p :| Joins(g, block, x, p);
      ClosedContains(g, block, x, p, visited);
    }
  }

  /** Between the logs start and end, the predicate was run exactly once on each block of visited, and on no other. */
  ghost predicate CalledSince(start: seq<BlockId>, end: seq<BlockId>, visited: set<BlockId>) {
    start <= end && NoDup(end[|start|..]) && forall x :: x in end[|start|..] <==> x in visited
  }

  lemma CallsAppend(start: seq<BlockId>, mid: seq<BlockId>, end: seq<BlockId>, first: set<BlockId>, second: set<BlockId>)
    requires first !! second && CalledSince(start, mid, first) && CalledSince(mid, end, second)
    ensures CalledSince(start, end, first + second)
  {
    var a, b := mid[|start|..], end[|mid|..];
    assert end[|start|..] == a + b;
    assert forall i :: 0 <= i < |a| ==> a[i] in a;
    assert forall i :: 0 <= i < |b| ==> b[i] in b;
  }

  /** Midway through the successors of block: everything is in order except that block itself need not be closed yet. */
  ghost predicate Walking(succ: EdgeMap, op: BlockId -> bool, before: set<BlockId>, block: BlockId,
                          seen: set<BlockId>, start: seq<BlockId>, calls: seq<BlockId>) {
    && before + {block} <= seen && block !in before
    && AllReached(succ, op, before, block, seen - before)
    && Closed(succ, op, seen, seen - before - {block})
    && CalledSince(start, calls, seen - before)
  }

  lemma WalkStart(succ: EdgeMap, op: BlockId -> bool, before: set<BlockId>, block: BlockId, calls: seq<BlockId>)
    requires block !in before
    ensures Walking(succ, op, before, block, before + {block}, calls, calls + [block])
  {
    Trivial(Followed(succ, op, before), block);
    assert (calls + [block])[|calls|..] == [block];
    assert (before + {block}) - before == {block};
  }

  /** After the walk from one successor b, which took the seen blocks from more to seen. */
  lemma WalkStep(succ: EdgeMap, op: BlockId -> bool, before: set<BlockId>, block: BlockId, more: set<BlockId>, seen: set<BlockId>,
                 b: BlockId, start: seq<BlockId>, mid: seq<BlockId>, end: seq<BlockId>)
    requires more <= seen && Walking(succ, op, before, block, more, start, mid)
    requires op(block) && b in EdgesOf(succ, block)
    requires Walked(succ, op, more, b, seen - more) && Closed(succ, op, seen, seen - more)
    requires CalledSince(mid, end, seen - more)
    ensures Walking(succ, op, before, block, seen, start, end)
  {
    assert seen - before == (more - before) + (seen - more);
    ReachedBySuccessor(succ, op, before, more, block, b, seen - more);
    CallsAppend(start, mid, end, more - before, seen - more);
  }

  lemma WalkEnd(succ: EdgeMap, op: BlockId -> bool, before: set<BlockId>, block: BlockId, seen: set<BlockId>,
                start: seq<BlockId>, calls: seq<BlockId>)
    requires Walking(succ, op, before, block, seen, start, calls)
    requires op(block) ==> forall y :: y in EdgesOf(succ, block) ==> y in seen
    ensures Closed(succ, op, seen, seen - before)
    ensures Walked(succ, op, before, block, seen - before)
  {
    ClosedIsWalked(succ, op, before, block, seen - before);
  }

  // ---------- the order of the calls ----------

  /** Has x been seen by the time of call i, if the calls from position start on follow on the seen blocks before? */
  ghost predicate SeenAt(before: set<BlockId>, calls: seq<BlockId>, start: nat, i: nat, x: BlockId)
    requires start <= i <= |calls|
  {
    x in before || x in calls[start..i]
  }

  /** By the time of call i, every successor of x has been seen, unless x does not satisfy op. */
  ghost predicate Done(succ: EdgeMap, op: BlockId -> bool, before: set<BlockId>, calls: seq<BlockId>, start: nat, i: nat, x: BlockId)
    requires start <= i <= |calls|
  {
    op(x) ==> forall y :: y in EdgesOf(succ, x) ==> SeenAt(before, calls, start, i, y)
  }

  /** calls[i] is the first unseen successor of calls[j], and all that was called after calls[j] is done. */
  ghost predicate DueTo(succ: EdgeMap, op: BlockId -> bool, before: set<BlockId>, calls: seq<BlockId>, start: nat, i: nat,
                        j: nat, k: nat)
    requires start <= j < i < |calls|
  {
    var edges := EdgesOf(succ, calls[j]);
    && op(calls[j]) && k < |edges| && edges[k] == calls[i]
    && (forall l :: 0 <= l < k ==> SeenAt(before, calls, start, i, edges[l]))
    && (forall q :: j < q < i ==> Done(succ, op, before, calls, start, i, calls[q]))
  }

  ghost predicate Due(succ: EdgeMap, op: BlockId -> bool, before: set<BlockId>, calls: seq<BlockId>, start: nat, i: nat)
    requires start < i < |calls|
  {
    exists j, k {:trigger DueTo(succ, op, before, calls, start, i, j, k)} ::
      start <= j < i && 0 <= k && DueTo(succ, op, before, calls, start, i, j, k)
  }

  /**
    The calls from position start on run depth first: block comes first, and every other call is on the first unseen
    successor of the latest called block that has one.
   */
  ghost predicate DepthFirst(succ: EdgeMap, op: BlockId -> bool, before: set<BlockId>, block: BlockId,
                             start: nat, calls: seq<BlockId>) {
    && start < |calls| && calls[start] == block
    && forall i :: start < i < |calls| ==> Due(succ, op, before, calls, start, i)
  }

  /** Further calls do not matter. */
  lemma DueLater(succ: EdgeMap, op: BlockId -> bool, before: set<BlockId>, calls: seq<BlockId>, more: seq<BlockId>, start: nat, i: nat)
    requires start < i < |calls| && calls <= more && Due(succ, op, before, calls, start, i)
    ensures Due(succ, op, before, more, start, i)
  {
    var j, k :| start <= j < i && 0 <= k && DueTo(succ, op, before, calls, start, i, j, k);
    assert calls[start..i] == more[start..i];
    assert forall x :: SeenAt(before, calls, start, i, x) <==> SeenAt(before, more, start, i, x);
    assert forall q :: j < q < i ==> Done(succ, op, before, calls, start, i, calls[q]) && calls[q] == more[q];
    assert DueTo(succ, op, before, more, start, i, j, k);
  }

  /** Nor does it matter whether earlier calls count as calls or as blocks seen before. */
  lemma DueShift(succ: EdgeMap, op: BlockId -> bool, before: set<BlockId>, more: set<BlockId>, calls: seq<BlockId>,
                 start: nat, mid: nat, i: nat)
    requires start <= mid < i < |calls| && Due(succ, op, more, calls, mid, i)
    requires forall x :: x in more <==> x in before || x in calls[start..mid]
    ensures Due(succ, op, before, calls, start, i)
  {
    var j, k :| mid <= j < i && 0 <= k && DueTo(succ, op, more, calls, mid, i, j, k);
    assert calls[start..i] == calls[start..mid] + calls[mid..i];
    assert forall x :: SeenAt(more, calls, mid, i, x) <==> SeenAt(before, calls, start, i, x);
    assert forall q :: j < q < i ==> Done(succ, op, more, calls, mid, i, calls[q]);
    assert DueTo(succ, op, before, calls, start, i, j, k);
  }

  /** The first call of the walk from successor k of block, whose earlier successors have all been walked from. */
  lemma DueNext(succ: EdgeMap, op: BlockId -> bool, before: set<BlockId>, block: BlockId, more: set<BlockId>, k: nat,
                start: seq<BlockId>, mid: seq<BlockId>, end: seq<BlockId>)
    requires Walking(succ, op, before, block, more, start, mid) && op(block) && k < |EdgesOf(succ, block)|
    requires |start| < |mid| && mid[|start|] == block && mid <= end && |mid| < |end| && end[|mid|] == EdgesOf(succ, block)[k]
    requires forall l :: 0 <= l < k ==> EdgesOf(succ, block)[l] in more
    ensures Due(succ, op, before, end, |start|, |mid|)
  {
    var s, i := |start|, |mid|;
    assert end[s..i] == mid[s..];
    assert forall x :: x in more <==> SeenAt(before, end, s, i, x);
    forall q | s < q < i ensures Done(succ, op, before, end, s, i, end[q]) {
      assert end[q] == mid[s..][q - s] && mid[s..][0] == block;
      assert end[q] in more - before - {block};
    }
    assert DueTo(succ, op, before, end, s, i, s, k);
  }

  /** After the walk from successor k of block. */
  lemma OrderStep(succ: EdgeMap, op: BlockId -> bool, before: set<BlockId>, block: BlockId, more: set<BlockId>, k: nat,
                  start: seq<BlockId>, mid: seq<BlockId>, end: seq<BlockId>)
    requires Walking(succ, op, before, block, more, start, mid) && op(block) && k < |EdgesOf(succ, block)|
    requires forall l :: 0 <= l < k ==> EdgesOf(succ, block)[l] in more
    requires DepthFirst(succ, op, before, block, |start|, mid) && mid <= end
    requires EdgesOf(succ, block)[k] in more ==> end == mid
    requires EdgesOf(succ, block)[k] !in more ==> DepthFirst(succ, op, more, EdgesOf(succ, block)[k], |mid|, end)
    ensures DepthFirst(succ, op, before, block, |start|, end)
  {
    forall i | |start| < i < |end| ensures Due(succ, op, before, end, |start|, i) {
      if i < |mid| {
        DueLater(succ, op, before, mid, end, |start|, i);
      } else if i == |mid| {
        DueNext(succ, op, before, block, more, k, start, mid, end);
      } else {
        assert end[|start|..|mid|] == mid[|start|..];
        DueShift(succ, op, before, more, end, |start|, |mid|, i);
      }
    }
  }

  /** The walk from block has run through its first k successors. */
  ghost predicate InProgress(succ: EdgeMap, op: BlockId -> bool, before: set<BlockId>, block: BlockId, k: nat,
                             seen: set<BlockId>, start: seq<BlockId>, calls: seq<BlockId>) {
    && k <= |EdgesOf(succ, block)| && (forall l :: 0 <= l < k ==> EdgesOf(succ, block)[l] in seen)
    && Walking(succ, op, before, block, seen, start, calls)
    && DepthFirst(succ, op, before, block, |start|, calls)
  }

  /** What a complete walk from block has done, if seen was before at its start. */
  ghost predicate Complete(succ: EdgeMap, op: BlockId -> bool, before: set<BlockId>, block: BlockId,
                           seen: set<BlockId>, start: seq<BlockId>, calls: seq<BlockId>) {
    && before <= seen && block in seen
    && Walked(succ, op, before, block, seen - before) && Closed(succ, op, seen, seen - before)
    && CalledSince(start, calls, seen - before)
    && (if block in before then calls == start else DepthFirst(succ, op, before, block, |start|, calls))
  }

  lemma Begin(succ: EdgeMap, op: BlockId -> bool, before: set<BlockId>, block: BlockId, calls: seq<BlockId>)
    requires block !in before
    ensures InProgress(succ, op, before, block, 0, before + {block}, calls, calls + [block])
  {
    WalkStart(succ, op, before, block, calls);
  }

  /** One more successor. */
  lemma Continue(succ: EdgeMap, op: BlockId -> bool, before: set<BlockId>, block: BlockId, k: nat, more: set<BlockId>,
                 seen: set<BlockId>, start: seq<BlockId>, mid: seq<BlockId>, end: seq<BlockId>)
    requires InProgress(succ, op, before, block, k, more, start, mid) && op(block) && k < |EdgesOf(succ, block)|
    requires Complete(succ, op, more, EdgesOf(succ, block)[k], seen, mid, end)
    ensures InProgress(succ, op, before, block, k + 1, seen, start, end)
  {
    var b := EdgesOf(succ, block)[k];
    assert b in EdgesOf(succ, block);
    WalkStep(succ, op, before, block, more, seen, b, start, mid, end);
    OrderStep(succ, op, before, block, more, k, start, mid, end);
  }

  lemma Finish(succ: EdgeMap, op: BlockId -> bool, before: set<BlockId>, block: BlockId, k: nat, seen: set<BlockId>,
               start: seq<BlockId>, calls: seq<BlockId>)
    requires InProgress(succ, op, before, block, k, seen, start, calls) && (op(block) ==> k == |EdgesOf(succ, block)|)
    ensures Complete(succ, op, before, block, seen, start, calls)
  {
    assert op(block) ==> forall y :: y in EdgesOf(succ, block) ==> y in seen;
    WalkEnd(succ, op, before, block, seen, start, calls);
  }

  lemma FewerUnseen(all: set<BlockId>, before: set<BlockId>, more: set<BlockId>, block: BlockId)
    requires block in all && block !in before && before + {block} <= more
    ensures all - more < all - before
  {
    assert block in all - before && block !in all - more;
  }

  lemma SuccessorIsBlock(f: Func, x: BlockId, y: BlockId)
    requires f.WellFormed() && y in EdgesOf(Final(f).succ, x)
    ensures x in f.blocks && y in f.blocks
  {
    FinalInv(f);
    assert x in EdgesOf(Final(f).pred, y);
    assert Below(Final(f).postOrder, y, x);
  }
}
