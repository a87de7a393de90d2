/** Traces of closed blocks: which way a block branches depends on the packet alone. */
module Traces {
  import opened Bpf
  import opened Flow
  import opened Layout
  import opened Dag
  import opened Atoms
  import opened Runs

  const ZERO: Store := [0, 0, 0, 0, 0, 0, 0, 0, 0, 0, 0, 0, 0, 0, 0, 0, 0, 0]

  /** Which way the block branches, if its statements do not abort. */
  function Goes(n: Node, p: Packet): Option<bool> {
    match ExecList(n.stmts, ZERO, p)
    case None => None
    case Some(st) => Some(Holds(n.s, st))
  }

  lemma {:induction false} ClosedListAgree(ss: seq<Stmt>, st: Store, st': Store, p: Packet)
    requires ClosedList(ss)
    ensures ExecList(ss, st, p).Some? <==> ExecList(ss, st', p).Some?
    ensures ExecList(ss, st, p).Some? ==> AgreeOn(DefsOf(ss), ExecList(ss, st, p).value, ExecList(ss, st', p).value)
    decreases |ss|
  {
    if ss != [] {
      var init, s := ss[..|ss| - 1], ss[|ss| - 1];
      forall k | 0 <= k < |init| ensures Uses(init[k]) <= DefsOf(init[..k]) {
        assert init[k] == ss[k] && init[..k] == ss[..k];
      }
      ClosedListAgree(init, st, st', p);
      assert init + [s] == ss;
      ExecSnoc(init, s, st, p);
      ExecSnoc(init, s, st', p);
      assert Uses(ss[|ss| - 1]) <= DefsOf(ss[..|ss| - 1]);
      if ExecList(init, st, p).Some? {
        StmtAgree(s, DefsOf(init), ExecList(init, st, p).value, ExecList(init, st', p).value, p);
      }
    }
  }

  /** A closed block branches the same way in every state. */
  lemma ClosedGoes(n: Node, st: Store, p: Packet)
    requires ClosedBlock(n)
    ensures ExecList(n.stmts, st, p).Some? <==> Goes(n, p).Some?
    ensures ExecList(n.stmts, st, p).Some? && !n.Leaf() ==>
      Goes(n, p) == Some(Holds(n.s, ExecList(n.stmts, st, p).value))
  {
    ClosedListAgree(n.stmts, st, ZERO, p);
    if ExecList(n.stmts, st, p).Some? && !n.Leaf() {
      UsesOnlyBranch(n.s, ExecList(n.stmts, st, p).value, ExecList(n.stmts, ZERO, p).value);
    }
  }

  /** The block control goes to, -1 after a leaf or an abort. */
  function Onward(g: Graph, b: nat, p: Packet): int
    requires b < |g|
  {
    if g[b].Leaf() then -1
    else match Goes(g[b], p) case None => -1 case Some(d) => if d then g[b].jt else g[b].jf
  }

  /** The blocks control passes from `b` on. */
  ghost function Trace(g: Graph, rank: Rank, b: int, p: Packet): seq<nat>
    requires WellFormed(g, rank) && (b == -1 || b in rank)
    decreases if b == -1 then 0 else rank[b] + 1
  {
    if b == -1 then []
    else
      assert NodeOk(g, rank, b);
      [b] + Trace(g, rank, Onward(g, b, p), p)
  }

  ghost predicate OnTrace(g: Graph, rank: Rank, x: int, b: int, p: Packet)
    requires WellFormed(g, rank) && (x == -1 || x in rank)
    decreases if x == -1 then 0 else rank[x] + 1
  {
    if x == -1 then false
    else
      assert NodeOk(g, rank, x);
      x == b || OnTrace(g, rank, Onward(g, x, p), b, p)
  }

  lemma {:induction false} OnTraceTrans(g: Graph, rank: Rank, x: int, y: int, z: int, p: Packet)
    requires WellFormed(g, rank) && (x == -1 || x in rank) && y in rank
    requires OnTrace(g, rank, x, y, p) && OnTrace(g, rank, y, z, p)
    ensures OnTrace(g, rank, x, z, p)
    decreases if x == -1 then 0 else rank[x] + 1
  {
    assert NodeOk(g, rank, x);
    if x != y {
      OnTraceTrans(g, rank, Onward(g, x, p), y, z, p);
    }
  }

  lemma {:induction false} OnTraceReach(g: Graph, rank: Rank, x: int, b: int, p: Packet)
    requires WellFormed(g, rank) && (x == -1 || x in rank) && OnTrace(g, rank, x, b, p)
    ensures x >= 0 && b in rank && b >= 0 && b in Reach(g, rank, x) && Height(g, rank, b) <= Height(g, rank, x)
    decreases if x == -1 then 0 else rank[x] + 1
  {
    assert NodeOk(g, rank, x);
    if x != b {
      OnTraceReach(g, rank, Onward(g, x, p), b, p);
      HeightFalls(g, rank, x);
    }
  }

  /** The verdict from a block of a closed region does not depend on the state. */
  lemma {:induction false} RunAnyState(g: Graph, rank: Rank, b: int, st: Store, p: Packet)
    requires WellFormed(g, rank) && b in rank && ClosedGraph(g, Reach(g, rank, b))
    ensures Run(g, rank, b, st, p) == Run(g, rank, b, ZERO, p)
    ensures Goes(g[b], p) == None ==> Run(g, rank, b, ZERO, p) == None
    ensures Goes(g[b], p).Some? && g[b].Leaf() ==> Run(g, rank, b, ZERO, p) == Some(g[b].s.k)
    ensures Goes(g[b], p).Some? && !g[b].Leaf() ==>
      Onward(g, b, p) in rank && Run(g, rank, b, ZERO, p) == Run(g, rank, Onward(g, b, p), ZERO, p)
    decreases rank[b]
  {
    assert NodeOk(g, rank, b);
    assert ClosedBlock(g[b]);
    ClosedGoes(g[b], st, p);
    ClosedGoes(g[b], ZERO, p);
    if Goes(g[b], p).Some? && !g[b].Leaf() {
      var c := Onward(g, b, p);
      ReachTrans(g, rank, b, c);
      RunAnyState(g, rank, c, ExecList(g[b].stmts, st, p).value, p);
      RunAnyState(g, rank, c, ExecList(g[b].stmts, ZERO, p).value, p);
    }
  }

  /** All blocks on a trace give the same verdict. */
  lemma {:induction false} TraceVerdict(g: Graph, rank: Rank, x: int, b: int, p: Packet)
    requires WellFormed(g, rank) && x in rank && ClosedGraph(g, Reach(g, rank, x)) && OnTrace(g, rank, x, b, p)
    ensures b in rank && Run(g, rank, b, ZERO, p) == Run(g, rank, x, ZERO, p)
    decreases rank[x]
  {
    assert NodeOk(g, rank, x);
    if x != b {
      var y := Onward(g, x, p);
      RunAnyState(g, rank, x, ZERO, p);
      ReachTrans(g, rank, x, y);
      TraceVerdict(g, rank, y, b, p);
    }
  }

  // ----- subsequences

  ghost predicate Subsequence(a: seq<nat>, b: seq<nat>) {
    a == [] || (b != [] && ((a[0] == b[0] && Subsequence(a[1..], b[1..])) || Subsequence(a, b[1..])))
  }

  lemma {:induction false} TraceSuffix(g: Graph, rank: Rank, x: int, b: int, p: Packet, a: seq<nat>)
    requires WellFormed(g, rank) && (x == -1 || x in rank) && b in rank && OnTrace(g, rank, x, b, p)
    requires Subsequence(a, Trace(g, rank, b, p))
    ensures Subsequence(a, Trace(g, rank, x, p))
    decreases if x == -1 then 0 else rank[x] + 1
  {
    assert NodeOk(g, rank, x);
    if x != b {
      TraceSuffix(g, rank, Onward(g, x, p), b, p, a);
      assert Trace(g, rank, x, p)[1..] == Trace(g, rank, Onward(g, x, p), p);
    }
  }
}
