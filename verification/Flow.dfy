/** The compiler's intermediate form: basic blocks ending in a two-way branch or a
    return. A block is named by its index, as it is by its number or address in the
    source; -1 is the null pointer. */
module Flow {
  import opened Bpf

  /** A block: its statements, its final instruction, and the indices of the blocks
      it continues with. A leaf returns a constant and has no successors (-1). */
  datatype Node = Node(stmts: seq<Stmt>, s: Stmt, jt: int, jf: int) {
    predicate Leaf() {
      s.code.RetK?
    }
  }

  type Graph = seq<Node>

  /** A number for each block of a region, falling along every edge. */
  type Rank = map<int, nat>

  predicate NodeOk(g: Graph, rank: Rank, i: nat)
    requires i < |g| && i in rank
  {
    && (forall k :: 0 <= k < |g[i].stmts| ==> Plain(g[i].stmts[k]))
    && (if g[i].Leaf() then g[i].jt == -1 && g[i].jf == -1
        else
          && TwoWay(g[i].s)
          && 0 <= g[i].jt < |g| && g[i].jt in rank && rank[g[i].jt] < rank[i]
          && 0 <= g[i].jf < |g| && g[i].jf in rank && rank[g[i].jf] < rank[i])
  }

  /** The ranked blocks form an acyclic region closed under successors; leaves are
      constant returns, and every other block ends in a two-way jump. */
  predicate WellFormed(g: Graph, rank: Rank) {
    && (forall i :: i in rank ==> 0 <= i < |g|)
    && forall i {:trigger NodeOk(g, rank, i)} :: 0 <= i < |g| && i in rank ==> NodeOk(g, rank, i)
  }

  /** Only pointers differ. */
  predicate SameCode(g: Graph, g': Graph) {
    |g'| == |g| && forall b {:trigger g'[b]} :: 0 <= b < |g| ==> g'[b].stmts == g[b].stmts && g'[b].s == g[b].s
  }

  /** The verdict of the graph from block `b`; `None` when a statement aborts. */
  function Run(g: Graph, rank: Rank, b: int, st: Store, p: Packet): Option<Word>
    requires WellFormed(g, rank) && b in rank
    decreases rank[b]
  {
    assert NodeOk(g, rank, b);
    match ExecList(g[b].stmts, st, p)
    case None => None
    case Some(st1) =>
      if g[b].Leaf() then Some(g[b].s.k)
      else if Holds(g[b].s, st1) then Run(g, rank, g[b].jt, st1, p)
      else Run(g, rank, g[b].jf, st1, p)
  }
}
