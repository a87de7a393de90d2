/** The block graph as the optimizer sees it: heights, edges and paths. */
module Dag {
  import opened Flow
  import opened Lists
  import opened Layout

  // ----- heights

  function Max(a: nat, b: nat): nat {
    if a > b then a else b
  }

  /** The length of the longest way down to a leaf. */
  ghost function Height(g: Graph, rank: Rank, b: int): nat
    requires WellFormed(g, rank) && b in rank
    decreases rank[b]
  {
    assert NodeOk(g, rank, b);
    if g[b].Leaf() then 0 else 1 + Max(Height(g, rank, g[b].jt), Height(g, rank, g[b].jf))
  }

  lemma HeightFalls(g: Graph, rank: Rank, b: int)
    requires WellFormed(g, rank) && b in rank && !g[b].Leaf()
    ensures g[b].jt in rank && g[b].jf in rank
    ensures Height(g, rank, g[b].jt) < Height(g, rank, b) && Height(g, rank, g[b].jf) < Height(g, rank, b)
  {
    assert NodeOk(g, rank, b);
  }

  lemma LeavesAtLevelZero(g: Graph, rank: Rank, b: int)
    requires WellFormed(g, rank) && b in rank
    ensures Height(g, rank, b) == 0 <==> g[b].Leaf()
  {
    assert NodeOk(g, rank, b);
  }

  // ----- what is reachable

  lemma {:induction false} ReachRanked(g: Graph, rank: Rank, b: int, x: nat)
    requires WellFormed(g, rank) && b in rank && x in Reach(g, rank, b)
    ensures x in rank && x < |g| && (x == b || rank[x] < rank[b])
    decreases rank[b]
  {
    assert NodeOk(g, rank, b);
    if x != b {
      if x in Reach(g, rank, g[b].jt) {
        ReachRanked(g, rank, g[b].jt, x);
      } else {
        ReachRanked(g, rank, g[b].jf, x);
      }
    }
  }

  lemma {:induction false} ReachTrans(g: Graph, rank: Rank, a: int, b: nat)
    requires WellFormed(g, rank) && a in rank && b in rank && b in Reach(g, rank, a)
    ensures Reach(g, rank, b) <= Reach(g, rank, a)
    decreases rank[a]
  {
    assert NodeOk(g, rank, a);
    if b != a {
      if b in Reach(g, rank, g[a].jt) {
        ReachTrans(g, rank, g[a].jt, b);
      } else {
        ReachTrans(g, rank, g[a].jf, b);
      }
    }
  }

  lemma ReachSuccs(g: Graph, rank: Rank, root: int, b: nat)
    requires WellFormed(g, rank) && root in rank && b in rank && b in Reach(g, rank, root) && !g[b].Leaf()
    ensures g[b].jt in Reach(g, rank, root) && g[b].jf in Reach(g, rank, root)
  {
    assert NodeOk(g, rank, b);
    ReachTrans(g, rank, root, b);
    assert g[b].jt in Reach(g, rank, g[b].jt) && g[b].jf in Reach(g, rank, g[b].jf);
  }

  /** A set closed under successors holds everything reachable from it. */
  lemma {:induction false} ReachWithin(g: Graph, rank: Rank, b: int, R: set<nat>)
    requires WellFormed(g, rank) && b in rank && b >= 0 && b in R
    requires forall x {:trigger g[x]} :: x in R && x in rank && x < |g| && !g[x].Leaf() ==> g[x].jt in R && g[x].jf in R
    ensures Reach(g, rank, b) <= R
    decreases rank[b]
  {
    assert NodeOk(g, rank, b);
    if !g[b].Leaf() {
      ReachWithin(g, rank, g[b].jt, R);
      ReachWithin(g, rank, g[b].jf, R);
    }
  }

  lemma SubsetSize(a: set<nat>, b: set<nat>)
    requires a <= b
    ensures |a| <= |b|
  {
    assert b == a + (b - a);
  }

  /** No way down is longer than the number of blocks on it. */
  lemma {:induction false} HeightBound(g: Graph, rank: Rank, b: int)
    requires WellFormed(g, rank) && b in rank
    ensures Height(g, rank, b) < |Reach(g, rank, b)|
    decreases rank[b]
  {
    assert NodeOk(g, rank, b);
    var r := Reach(g, rank, b);
    if g[b].Leaf() {
      SubsetSize({b as nat}, r);
    } else {
      HeightBound(g, rank, g[b].jt);
      HeightBound(g, rank, g[b].jf);
      Below1(g, rank, b, g[b].jt);
      Below1(g, rank, b, g[b].jf);
    }
  }

  lemma Below1(g: Graph, rank: Rank, b: nat, c: int)
    requires WellFormed(g, rank) && b in rank && c in rank && rank[c] < rank[b] &&
      Reach(g, rank, c) <= Reach(g, rank, b)
    requires b in Reach(g, rank, b)
    ensures |Reach(g, rank, c)| < |Reach(g, rank, b)|
  {
    if b in Reach(g, rank, c) {
      ReachRanked(g, rank, c, b);
    }
    SubsetSize(Reach(g, rank, c), Reach(g, rank, b) - {b});
  }

  lemma LevelBound(g: Graph, rank: Rank, b: int)
    requires WellFormed(g, rank) && b in rank
    ensures Height(g, rank, b) < |g|
  {
    HeightBound(g, rank, b);
    forall x | x in Reach(g, rank, b) ensures x in Upto(|g|) {
      ReachRanked(g, rank, b, x);
    }
    SubsetSize(Reach(g, rank, b), Upto(|g|));
  }

  // ----- edges

  /** Edges are numbered: the true edge of block `i` is `i`, its false edge `n + i`. */
  function Pred(g: Graph, e: nat): int {
    if e < |g| then e else e - |g|
  }

  function Succ(g: Graph, e: nat): int {
    if e < |g| then g[e].jt
    else if e < 2 * |g| then g[e - |g|].jf
    else -1
  }
}
