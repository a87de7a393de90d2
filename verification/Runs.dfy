/** Runs through the block graph, block by block. */
module Runs {
  import opened Bpf
  import opened Flow
  import opened Layout
  import opened Dag
  import opened Atoms

  /** Where control goes after a block that left `st`. */
  function Taken(g: Graph, b: nat, st: Store): int
    requires b < |g|
  {
    if Holds(g[b].s, st) then g[b].jt else g[b].jf
  }

  /** The state in which a run from block `x` enters block `b`; `None` if it does not. */
  ghost function Enters(g: Graph, rank: Rank, x: int, st: Store, p: Packet, b: int): Option<Store>
    requires WellFormed(g, rank) && x in rank
    decreases rank[x]
  {
    assert NodeOk(g, rank, x);
    if x == b then Some(st)
    else
      match ExecList(g[x].stmts, st, p)
      case None => None
      case Some(st1) => if g[x].Leaf() then None else Enters(g, rank, Taken(g, x, st1), st1, p, b)
  }

  /** A run enters a block other than its first from one of the block's predecessors. */
  lemma {:induction false} EntersFrom(g: Graph, rank: Rank, x: int, st: Store, p: Packet, b: int)
    returns (u: nat, su: Store)
    requires WellFormed(g, rank) && x in rank && x != b && Enters(g, rank, x, st, p, b).Some?
    ensures u in Reach(g, rank, x) && u in rank && u < |g| && !g[u].Leaf() && Enters(g, rank, x, st, p, u) == Some(su)
    ensures ExecList(g[u].stmts, su, p) == Enters(g, rank, x, st, p, b)
    ensures Taken(g, u, Enters(g, rank, x, st, p, b).value) == b
    decreases rank[x]
  {
    assert NodeOk(g, rank, x);
    var st1 := ExecList(g[x].stmts, st, p).value;
    var y := Taken(g, x, st1);
    if y == b {
      u, su := x, st;
    } else {
      u, su := EntersFrom(g, rank, y, st1, p, b);
      if u == x {
        ReachRanked(g, rank, y, x);
      }
    }
  }

  lemma {:induction false} EntersLower(g: Graph, rank: Rank, y: int, st0: Store, p: Packet, x: int)
    requires WellFormed(g, rank) && y in rank && x in rank && Enters(g, rank, y, st0, p, x).Some?
    ensures rank[x] <= rank[y]
    decreases rank[y]
  {
    assert NodeOk(g, rank, y);
    if y != x {
      var st1 := ExecList(g[y].stmts, st0, p).value;
      EntersLower(g, rank, Taken(g, y, st1), st1, p, x);
    }
  }

  /** A run that enters a block and gets through it enters the one it goes on to. */
  lemma {:induction false} EntersStep(g: Graph, rank: Rank, y: int, st0: Store, p: Packet, x: nat, st: Store)
    requires WellFormed(g, rank) && y in rank && x in rank && x < |g| && !g[x].Leaf()
    requires Enters(g, rank, y, st0, p, x) == Some(st) && ExecList(g[x].stmts, st, p).Some?
    ensures
      var st1 := ExecList(g[x].stmts, st, p).value;
      Enters(g, rank, y, st0, p, Taken(g, x, st1)) == Some(st1)
    decreases rank[y]
  {
    assert NodeOk(g, rank, y) && NodeOk(g, rank, x);
    var st1 := ExecList(g[x].stmts, st, p).value;
    if y != x {
      var sy := ExecList(g[y].stmts, st0, p).value;
      EntersStep(g, rank, Taken(g, y, sy), sy, p, x, st);
      EntersLower(g, rank, y, st0, p, x);
    }
    assert y != Taken(g, x, st1);
  }

  // ----- closed blocks

  /** Everything the block reads it has itself written before. */
  ghost predicate ClosedBlock(n: Node) {
    ClosedList(n.stmts) && (!n.Leaf() ==> Uses(n.s) <= DefsOf(n.stmts))
  }

  ghost predicate ClosedGraph(g: Graph, R: set<nat>) {
    forall b {:trigger g[b]} :: b in R && b < |g| ==> ClosedBlock(g[b])
  }
}
