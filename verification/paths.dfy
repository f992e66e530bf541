/** Paths and dominance in an arbitrary directed graph. */
module Paths {
  import opened Blocks

  /** A graph is its set of edges (from, to). */
  type Graph = iset<(BlockId, BlockId)>

  ghost predicate IsPath(g: Graph, p: seq<BlockId>) {
    |p| > 0 && forall i :: 0 <= i < |p| - 1 ==> (p[i], p[i + 1]) in g
  }

  /** p is a path of g from a to b. */
  ghost predicate Joins(g: Graph, a: BlockId, b: BlockId, p: seq<BlockId>) {
    IsPath(g, p) && p[0] == a && p[|p| - 1] == b
  }

  ghost predicate Reaches(g: Graph, a: BlockId, b: BlockId) {
    exists p :: Joins(g, a, b, p)
  }

  /** x lies on every path of g from root to b. */
  ghost predicate Dominates(g: Graph, root: BlockId, x: BlockId, b: BlockId) {
    forall p :: Joins(g, root, b, p) ==> x in p
  }

  lemma Trivial(g: Graph, a: BlockId)
    ensures Joins(g, a, a, [a])
    ensures Reaches(g, a, a)
  {
    assert Joins(g, a, a, [a]);
  }

  lemma Extend(g: Graph, a: BlockId, b: BlockId, p: seq<BlockId>, c: BlockId)
    requires Joins(g, a, b, p) && (b, c) in g
    ensures Joins(g, a, c, p + [c])
  {
    var q := p + [c];
    forall i | 0 <= i < |q| - 1 ensures (q[i], q[i + 1]) in g {
      if i < |p| - 1 { assert (p[i], p[i + 1]) in g; }
    }
  }

  lemma Prefix(g: Graph, p: seq<BlockId>, n: nat)
    requires IsPath(g, p) && 0 < n <= |p|
    ensures Joins(g, p[0], p[n - 1], p[..n])
  {
    var q := p[..n];
    forall i | 0 <= i < |q| - 1 ensures (q[i], q[i + 1]) in g {
      assert (p[i], p[i + 1]) in g;
    }
  }

  lemma Suffix(g: Graph, p: seq<BlockId>, n: nat)
    requires IsPath(g, p) && n < |p|
    ensures Joins(g, p[n], p[|p| - 1], p[n..])
  {
    var q := p[n..];
    forall i | 0 <= i < |q| - 1 ensures (q[i], q[i + 1]) in g {
      assert (p[n + i], p[n + i + 1]) in g;
    }
  }

  lemma Concat(g: Graph, a: BlockId, b: BlockId, c: BlockId, p: seq<BlockId>, q: seq<BlockId>)
    requires Joins(g, a, b, p) && Joins(g, b, c, q)
    ensures Joins(g, a, c, p + q[1..])
  {
    var r := p + q[1..];
    forall i | 0 <= i < |r| - 1 ensures (r[i], r[i + 1]) in g {
      if i < |p| - 1 {
        assert (p[i], p[i + 1]) in g;
      } else {
        var j := i - (|p| - 1);
        assert (q[j], q[j + 1]) in g;
        assert r[i] == q[j] && r[i + 1] == q[j + 1];
      }
    }
  }

  lemma ReachesStep(g: Graph, a: BlockId, b: BlockId, c: BlockId)
    requires Reaches(g, a, b) && (b, c) in g
    ensures Reaches(g, a, c)
  {
    var p :| Joins(g, a, b, p);
    Extend(g, a, b, p, c);
  }

  lemma ReachesTrans(g: Graph, a: BlockId, b: BlockId, c: BlockId)
    requires Reaches(g, a, b) && Reaches(g, b, c)
    ensures Reaches(g, a, c)
  {
    var p :| Joins(g, a, b, p);
    var q :| Joins(g, b, c, q);
    Concat(g, a, b, c, p, q);
  }

  /** A set that contains a and is closed under g contains every block reachable from a. */
  lemma {:induction false} ClosedContains(g: Graph, a: BlockId, b: BlockId, p: seq<BlockId>, s: set<BlockId>)
    requires Joins(g, a, b, p) && a in s
    requires forall u, v {:trigger (u, v) in g} :: u in s && (u, v) in g ==> v in s
    ensures b in s
    decreases |p|
  {
    if |p| > 1 {
      Prefix(g, p, |p| - 1);
      assert (p[|p| - 2], p[|p| - 1]) in g;
      ClosedContains(g, a, p[|p| - 2], p[..|p| - 1], s);
    }
  }

  /** More edges, more paths: what dominates in g dominates in every subgraph. */
  lemma DominatesInSubgraph(g: Graph, h: Graph, root: BlockId, x: BlockId, b: BlockId)
    requires h <= g && Dominates(g, root, x, b)
    ensures Dominates(h, root, x, b)
  {
    forall p | Joins(h, root, b, p) ensures x in p {
      forall i | 0 <= i < |p| - 1 ensures (p[i], p[i + 1]) in g {
        assert (p[i], p[i + 1]) in h;
      }
      assert Joins(g, root, b, p);
    }
  }

  /** The dominance equation: apart from the root, a block is dominated by itself and by whatever dominates all its predecessors. */
  lemma DominatesStep(g: Graph, root: BlockId, x: BlockId, b: BlockId)
    requires b != root
    ensures Dominates(g, root, x, b) <==> x == b || forall u :: (u, b) in g ==> Dominates(g, root, x, u)
  {
    if Dominates(g, root, x, b) && x != b {
      forall u | (u, b) in g ensures Dominates(g, root, x, u) {
        forall p | Joins(g, root, u, p) ensures x in p {
          Extend(g, root, u, p, b);
          assert x in p + [b];
        }
      }
    }
    if forall u :: (u, b) in g ==> Dominates(g, root, x, u) {
      forall p | Joins(g, root, b, p) ensures x in p {
        var n := |p| - 1;
        assert (p[n - 1], p[n]) in g;
        Prefix(g, p, n);
        assert x in p[..n];
      }
    }
  }

  lemma DominatesRoot(g: Graph, root: BlockId, x: BlockId)
    ensures Dominates(g, root, x, root) <==> x == root
  {
    Trivial(g, root);
    if x != root {
      assert x !in [root];
    }
  }
}
