/** How large graphs may get. */
module Sizes {
  import opened Bpf
  import opened Flow
  import opened Constancy
  import opened Layout
  import opened Numbering
  import opened ValueSweep

  /** Blocks reachable later were reachable before, and no block has got more
      statements. */
  predicate NoLarger(g: Graph, R: set<nat>, g': Graph, R': set<nat>) {
    && |g'| == |g| && R' <= R
    && forall b {:trigger g'[b]} :: 0 <= b < |g| ==>
         |g'[b].stmts| == |g[b].stmts| && SLength(g'[b].stmts) <= SLength(g[b].stmts)
  }

  lemma NoLargerTrans(g0: Graph, R0: set<nat>, g1: Graph, R1: set<nat>, g2: Graph, R2: set<nat>)
    requires NoLarger(g0, R0, g1, R1) && NoLarger(g1, R1, g2, R2)
    ensures NoLarger(g0, R0, g2, R2)
  {
    forall b | 0 <= b < |g0|
      ensures |g2[b].stmts| == |g0[b].stmts| && SLength(g2[b].stmts) <= SLength(g0[b].stmts) {
      assert |g1[b].stmts| == |g0[b].stmts|;
    }
  }

  /** Tables sized for a graph are large enough for every graph made of it. */
  lemma MaxValShrinks(g: Graph, R: set<nat>, g': Graph, R': set<nat>)
    requires NoLarger(g, R, g', R')
    ensures MaxVal(g', R') <= MaxVal(g, R)
  {
    TotalLeq(seq(|g'|, b requires 0 <= b < |g'| => if b in R' then SLength(g'[b].stmts) + 1 else 0),
             seq(|g|, b requires 0 <= b < |g| => if b in R then SLength(g[b].stmts) + 1 else 0));
  }

  lemma SameCodeNoLarger(g: Graph, R: set<nat>, g': Graph, R': set<nat>)
    requires SameCode(g, g') && R' <= R
    ensures NoLarger(g, R, g', R')
  {
    forall b | 0 <= b < |g|
      ensures |g'[b].stmts| == |g[b].stmts| && SLength(g'[b].stmts) <= SLength(g[b].stmts) {
      assert g'[b].stmts == g[b].stmts;
    }
  }

  /** Deleted statements stay deleted. */
  lemma {:induction false} SLengthLeq(ss: seq<Stmt>, ss': seq<Stmt>)
    requires |ss'| == |ss| && forall k {:trigger ss'[k]} :: 0 <= k < |ss| && ss[k].code.Nop? ==> ss'[k].code.Nop?
    ensures SLength(ss') <= SLength(ss)
  {
    if ss != [] {
      SLengthLeq(ss[..|ss| - 1], ss'[..|ss| - 1]);
    }
  }

  /** A program made later needs no more room. */
  lemma WeightsKept(g: Graph, R: set<nat>, g': Graph, R': set<nat>)
    requires NoLarger(g, R, g', R')
    ensures Weights(g') == Weights(g)
  {
    forall b | 0 <= b < |g| ensures |g'[b].stmts| == |g[b].stmts| {
    }
  }

  lemma SameCodeSteady(g: Graph, g': Graph)
    requires SameCode(g, g') && SteadyGraph(g)
    ensures SteadyGraph(g')
  {
    forall b | 0 <= b < |g'| ensures Steady(g'[b].stmts) {
      assert g'[b].stmts == g[b].stmts && Steady(g[b].stmts);
    }
  }
}
