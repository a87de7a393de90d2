/** Reordering a chain of alternatives: a later test is moved in front of an earlier one,
    where it follows tests of the same value. */
module Pullup {
  import opened Bpf
  import opened Flow
  import opened Lists
  import opened Layout
  import opened Dag
  import opened Sweep
  import opened PathFacts
  import opened Numbering
  import opened Runs
  import opened ValueSweep
  import opened Traces
  import opened Seal

  // ----- chains

  /** The exit all tests of a chain share: the true one of alternatives, the false one of
      conditions. */
  function Shared(n: Node, or: bool): int {
    if or then n.jt else n.jf
  }

  /** The exit that leads to the next test. */
  function Onto(n: Node, or: bool): int {
    if or then n.jf else n.jt
  }

  function SetOnto(n: Node, or: bool, x: int): Node {
    if or then n.(jf := x) else n.(jt := x)
  }

  /** `c` follows the chain from `c[0]`; its tests share the exit `t`. */
  ghost predicate Chain(g: Graph, c: seq<nat>, t: int, or: bool) {
    && c != []
    && (forall i {:trigger c[i]} :: 0 <= i < |c| ==> c[i] < |g| && Shared(g[c[i]], or) == t && !g[c[i]].Leaf())
    && (forall i {:trigger Follows(g, c, i, or)} :: 0 <= i < |c| - 1 ==> Follows(g, c, i, or))
  }

  ghost predicate Follows(g: Graph, c: seq<nat>, i: nat, or: bool)
    requires i < |c| - 1
  {
    c[i] < |g| && Onto(g[c[i]], or) == c[i + 1]
  }

  ghost predicate Ranked(rank: Rank, c: seq<nat>) {
    forall i {:trigger c[i]} :: 0 <= i < |c| ==> c[i] in rank
  }

  lemma {:induction false} ChainFalls(g: Graph, rank: Rank, c: seq<nat>, t: int, or: bool, i: nat, k: nat)
    requires WellFormed(g, rank) && Chain(g, c, t, or) && Ranked(rank, c) && i < k < |c|
    ensures rank[c[k]] < rank[c[i]]
    decreases k
  {
    assert Follows(g, c, k - 1, or);
    assert NodeOk(g, rank, c[k - 1]);
    if i < k - 1 {
      ChainFalls(g, rank, c, t, or, i, k - 1);
    }
  }

  /** The shared exit lies below the whole chain. */
  lemma SharedBelow(g: Graph, rank: Rank, c: seq<nat>, t: int, or: bool, i: nat)
    requires WellFormed(g, rank) && Chain(g, c, t, or) && Ranked(rank, c) && i < |c|
    ensures t in rank && t >= 0 && rank[t] < rank[c[i]]
  {
    assert NodeOk(g, rank, c[i]);
  }

  // ----- a dominated chain is entered at its top only

  /** Every reachable block lies on a path from the root. */
  lemma {:induction false} PathExists(g: Graph, rank: Rank, root: nat, y: nat, ns: seq<nat>, x: nat)
    returns (ms: seq<nat>)
    requires WellFormed(g, rank) && root in rank && y in rank && y in Reach(g, rank, root) && y < |g|
    requires Path(BlockNet(g, rank, root), ns, y) && x in Reach(g, rank, y)
    ensures Path(BlockNet(g, rank, root), ms, x)
    decreases rank[y]
  {
    assert NodeOk(g, rank, y);
    if x == y {
      ms := ns;
    } else {
      ReachSuccs(g, rank, root, y);
      var z := if x in Reach(g, rank, g[y].jt) then g[y].jt else g[y].jf;
      PathToSucc(g, rank, root, y, ns, z);
      ms := PathExists(g, rank, root, z, ns + [z], x);
    }
  }

  lemma PathToSucc(g: Graph, rank: Rank, root: nat, y: nat, ns: seq<nat>, z: nat)
    requires WellFormed(g, rank) && root in rank && y < |g| && (z == g[y].jt || z == g[y].jf)
    requires Path(BlockNet(g, rank, root), ns, y) && z in Reach(g, rank, root)
    ensures Path(BlockNet(g, rank, root), ns + [z], z)
  {
    assert (ns + [z])[..|ns + [z]| - 1] == ns;
  }

  /** A block on a path leads to the path's end. */
  lemma {:induction false} PathReaches(g: Graph, rank: Rank, root: nat, ns: seq<nat>, x: nat, b: nat)
    requires WellFormed(g, rank) && root in rank && Path(BlockNet(g, rank, root), ns, x) && b in Elems(ns)
    ensures b in rank && x in rank && x in Reach(g, rank, b)
    decreases |ns|
  {
    ReachRanked(g, rank, root, x);
    if b == x {
      assert NodeOk(g, rank, x);
    } else {
      assert |ns| > 1;
      var u := ns[|ns| - 2];
      PathReaches(g, rank, root, ns[..|ns| - 1], u, b);
      assert Linked(BlockNet(g, rank, root).links, u, x);
      assert NodeOk(g, rank, u);
      assert x in Reach(g, rank, x) by { assert NodeOk(g, rank, x); }
      assert x in Reach(g, rank, u);
      ReachTrans(g, rank, b, u);
    }
  }

  /** From the top of a chain, the predecessor of one of its members is the member
      before it. */
  lemma {:induction false} OnlyFromChain(g: Graph, rank: Rank, c: seq<nat>, t: int, or: bool, k: nat, i: nat, x: nat)
    requires WellFormed(g, rank) && Chain(g, c, t, or) && Ranked(rank, c) && k < i < |c|
    requires x in rank && x in Reach(g, rank, c[k]) && x < |g| && !g[x].Leaf() && (g[x].jt == c[i] || g[x].jf == c[i])
    ensures x == c[i - 1] && Onto(g[x], or) == c[i] && Shared(g[x], or) != c[i]
    decreases i - k
  {
    assert NodeOk(g, rank, c[k]) && NodeOk(g, rank, x);
    SharedBelow(g, rank, c, t, or, i);
    if x == c[k] {
      if k + 1 < i {
        ChainFalls(g, rank, c, t, or, k + 1, i);
      }
      assert Follows(g, c, k, or);
    } else {
      assert Follows(g, c, k, or);
      if x in Reach(g, rank, t) {
        ReachRanked(g, rank, t, x);
        assert false;
      }
      assert x in Reach(g, rank, c[k + 1]);
      if k + 1 == i {
        ReachRanked(g, rank, c[i], x);
        assert false;
      }
      OnlyFromChain(g, rank, c, t, or, k + 1, i, x);
    }
  }

  /** A chain member below `b` that `b` dominates is entered from the member above only. */
  lemma SingleEntry(g: Graph, rank: Rank, root: nat, dom: seq<set<nat>>, c: seq<nat>, t: int, or: bool, i: nat, x: nat)
    requires WellFormed(g, rank) && root in rank && root < |g|
    requires Visited(BlockNet(g, rank, root), Reach(g, rank, root), dom, true)
    requires Chain(g, c, t, or) && Ranked(rank, c) && 0 < i < |c| && c[i] in Reach(g, rank, root) && c[i] < |dom| &&
      c[0] in dom[c[i]]
    requires x in Reach(g, rank, root) && x in rank && x < |g| && !g[x].Leaf() && (g[x].jt == c[i] || g[x].jf == c[i])
    ensures x == c[i - 1] && Onto(g[x], or) == c[i] && Shared(g[x], or) != c[i]
  {
    var N := BlockNet(g, rank, root);
    assert [root][..0] == [];
    assert root in Reach(g, rank, root) by { assert NodeOk(g, rank, root); }
    assert Path(N, [root], root);
    var ns := PathExists(g, rank, root, root, [root], x);
    PathToSucc(g, rank, root, x, ns, c[i]);
    DominatorsExact(g, rank, root, dom, c[i], c[0]);
    assert c[0] in Elems(ns + [c[i]]);
    assert (ns + [c[i]])[..|ns|] == ns;
    ChainFalls(g, rank, c, t, or, 0, i);
    PathReaches(g, rank, root, ns, x, c[0]);
    OnlyFromChain(g, rank, c, t, or, 0, i, x);
  }

  // ----- the move

  /** Along the chain `c`, the last test is moved in front of test `j`. */
  datatype Move = Move(c: seq<nat>, j: nat, t: int, or: bool) {
    ghost predicate Ok() {
      j + 1 < |c|
    }
    ghost function Pull(): nat
      requires Ok()
    {
      c[|c| - 1]
    }
    ghost function Top(): nat
      requires Ok()
    {
      c[j]
    }
    ghost function Last(): nat
      requires Ok()
    {
      c[|c| - 2]
    }
  }

  ghost predicate Entered(g: Graph, mv: Move, i: nat, x: nat)
    requires 0 < i < |mv.c| && x < |g|
  {
    g[x].jt == mv.c[i] || g[x].jf == mv.c[i] ==>
      x == mv.c[i - 1] && Onto(g[x], mv.or) == mv.c[i] && Shared(g[x], mv.or) != mv.c[i]
  }

  ghost predicate InRegion(g: Graph, rank: Rank, R: set<nat>, x: nat) {
    x < |g| && x in rank && ClosedBlock(g[x]) && (!g[x].Leaf() ==> g[x].jt in R && g[x].jf in R)
  }

  /** What the dominator test guarantees of the chain found. */
  ghost predicate Movable(g: Graph, rank: Rank, R: set<nat>, mv: Move) {
    && WellFormed(g, rank) && mv.Ok() && Chain(g, mv.c, mv.t, mv.or)
    && (forall i {:trigger mv.c[i]} :: 0 <= i < |mv.c| ==> mv.c[i] in R && mv.c[i] in rank)
    && (forall x {:trigger InRegion(g, rank, R, x)} :: x in R ==> InRegion(g, rank, R, x))
    && (forall i, x {:trigger Entered(g, mv, i, x)} :: 0 < i < |mv.c| && x in R && x < |g| ==> Entered(g, mv, i, x))
  }

  ghost function NewSucc(mv: Move, y: int): int
    requires mv.Ok()
  {
    if y == mv.Top() then mv.Pull() else y
  }

  /** What becomes of a block: the pulled test leads to the test it was moved in front of,
      the test before it to what followed it, and what led there leads to it. */
  ghost predicate MovedAt(g: Graph, g': Graph, mv: Move, x: nat)
    requires mv.Ok() && x < |g| == |g'| && mv.Pull() < |g|
  {
    var n, n' := g[x], g'[x];
    && n'.stmts == n.stmts && n'.s == n.s
    && if n.Leaf() then n' == n
       else if x == mv.Pull() then Shared(n', mv.or) == mv.t && Onto(n', mv.or) == mv.Top()
       else if x == mv.Last() then Shared(n', mv.or) == mv.t && Onto(n', mv.or) == Onto(g[mv.Pull()], mv.or)
       else n'.jt == NewSucc(mv, n.jt) && n'.jf == NewSucc(mv, n.jf)
  }

  ghost predicate Moved(g: Graph, g': Graph, R: set<nat>, mv: Move) {
    && mv.Ok() && |g| == |g'| && mv.Pull() < |g|
    && forall x {:trigger MovedAt(g, g', mv, x)} :: x in R && x < |g| ==> MovedAt(g, g', mv, x)
  }

  /** Nothing but pointers of blocks of `R` has changed. */
  ghost predicate OnlyPointers(g: Graph, g': Graph, R: set<nat>) {
    SameCode(g, g') && forall x {:trigger g'[x]} :: 0 <= x < |g| && x !in R ==> g'[x] == g[x]
  }

  ghost function NewRank(rank: Rank, R: set<nat>, mv: Move): Rank
    requires mv.Ok() && mv.Top() in rank
  {
    map x: int | x in rank && x >= 0 && x in R ::
      if x == mv.Pull() then 2 * rank[mv.Top()] + 1 else 2 * rank[x]
  }

  lemma NotPull(g: Graph, rank: Rank, R: set<nat>, mv: Move, x: nat)
    requires Movable(g, rank, R, mv) && x in R && x != mv.Last() && x < |g|
    ensures g[x].jt != mv.Pull() && g[x].jf != mv.Pull()
  {
    assert Entered(g, mv, |mv.c| - 1, x);
  }

  lemma ChainRanks(g: Graph, rank: Rank, R: set<nat>, mv: Move)
    requires Movable(g, rank, R, mv)
    ensures mv.Pull() in rank && mv.Top() in rank && mv.Last() in rank && mv.Pull() in R && mv.Top() in R
    ensures rank[mv.Pull()] < rank[mv.Last()] <= rank[mv.Top()]
    ensures mv.t in rank && mv.t >= 0 && mv.t in R && rank[mv.t] < rank[mv.Pull()]
    ensures Onto(g[mv.Pull()], mv.or) in rank && rank[Onto(g[mv.Pull()], mv.or)] < rank[mv.Pull()]
    ensures Onto(g[mv.Pull()], mv.or) >= 0 && Onto(g[mv.Pull()], mv.or) in R && mv.Pull() < |g|
  {
    var m := |mv.c| - 1;
    assert mv.c[m] in R && mv.c[mv.j] in R && mv.c[m - 1] in R;
    ChainFalls(g, rank, mv.c, mv.t, mv.or, m - 1, m);
    if mv.j < m - 1 {
      ChainFalls(g, rank, mv.c, mv.t, mv.or, mv.j, m - 1);
    }
    SharedBelow(g, rank, mv.c, mv.t, mv.or, m);
    assert NodeOk(g, rank, mv.c[m]) && InRegion(g, rank, R, mv.c[m]);
  }

  /** Moving a test creates no cycle. */
  lemma MovedWf(g: Graph, g': Graph, rank: Rank, R: set<nat>, mv: Move)
    requires Movable(g, rank, R, mv) && Moved(g, g', R, mv)
    ensures mv.Top() in rank && WellFormed(g', NewRank(rank, R, mv))
  {
    ChainRanks(g, rank, R, mv);
    var nr := NewRank(rank, R, mv);
    forall x | 0 <= x < |g'| && x in nr ensures NodeOk(g', nr, x) {
      assert MovedAt(g, g', mv, x) && NodeOk(g, rank, x) && InRegion(g, rank, R, x);
      if !g[x].Leaf() && x != mv.Pull() && x != mv.Last() {
        NotPull(g, rank, R, mv, x);
      }
    }
  }

  // ----- the verdict

  /** The block takes the exit the chain shares. */
  predicate Leaves(n: Node, or: bool, p: Packet) {
    Goes(n, p) == Some(or)
  }

  ghost function V(g: Graph, rank: Rank, x: int, p: Packet): Option<Word>
    requires WellFormed(g, rank) && x in rank
  {
    Run(g, rank, x, ZERO, p)
  }

  /** A verdict is kept; an abort may be replaced by one. */
  predicate Kept(v: Option<Word>, v': Option<Word>) {
    v.Some? ==> v' == v
  }

  /** The verdict along the rest of the chain when the pulled test is left out. */
  ghost function Without(g: Graph, rank: Rank, R: set<nat>, mv: Move, i: nat, p: Packet): Option<Word>
    requires Movable(g, rank, R, mv) && mv.j <= i < |mv.c|
    decreases |mv.c| - i
  {
    ChainRanks(g, rank, R, mv);
    if i == |mv.c| - 1 then V(g, rank, Onto(g[mv.Pull()], mv.or), p)
    else if Goes(g[mv.c[i]], p) == None then None
    else if Leaves(g[mv.c[i]], mv.or, p) then V(g, rank, mv.t, p)
    else Without(g, rank, R, mv, i + 1, p)
  }

  lemma VStep(g: Graph, rank: Rank, R: set<nat>, x: int, p: Packet)
    requires WellFormed(g, rank) && x in rank && x >= 0 && x in R
    requires forall y {:trigger InRegion(g, rank, R, y)} :: y in R ==> InRegion(g, rank, R, y)
    ensures Goes(g[x], p) == None ==> V(g, rank, x, p) == None
    ensures g[x].Leaf() && Goes(g[x], p).Some? ==> V(g, rank, x, p) == Some(g[x].s.k)
    ensures !g[x].Leaf() ==> g[x].jt in rank && g[x].jf in rank
    ensures !g[x].Leaf() && Goes(g[x], p).Some? ==>
      V(g, rank, x, p) == V(g, rank, if Goes(g[x], p) == Some(true) then g[x].jt else g[x].jf, p)
  {
    assert InRegion(g, rank, R, x) && NodeOk(g, rank, x);
    RegionClosed(g, rank, R, x);
    RunAnyState(g, rank, x, ZERO, p);
  }

  lemma {:induction false} ReachInRegion(g: Graph, rank: Rank, R: set<nat>, x: int, y: nat)
    requires WellFormed(g, rank) && x in rank && x >= 0 && x in R && y in Reach(g, rank, x)
    requires forall z {:trigger InRegion(g, rank, R, z)} :: z in R ==> InRegion(g, rank, R, z)
    ensures y in R
    decreases rank[x]
  {
    assert InRegion(g, rank, R, x) && NodeOk(g, rank, x);
    if y != x {
      ReachInRegion(g, rank, R, if y in Reach(g, rank, g[x].jt) then g[x].jt else g[x].jf, y);
    }
  }

  lemma RegionClosed(g: Graph, rank: Rank, R: set<nat>, x: int)
    requires WellFormed(g, rank) && x in rank && x >= 0 && x in R
    requires forall y {:trigger InRegion(g, rank, R, y)} :: y in R ==> InRegion(g, rank, R, y)
    ensures ClosedGraph(g, Reach(g, rank, x))
  {
    forall y | y in Reach(g, rank, x) && y < |g| ensures ClosedBlock(g[y]) {
      ReachInRegion(g, rank, R, x, y);
      assert InRegion(g, rank, R, y);
    }
  }

  /** A verdict reached along the chain is the one reached with the pulled test asked
      first. */
  lemma {:induction false} ChainValue(g: Graph, rank: Rank, R: set<nat>, mv: Move, i: nat, p: Packet)
    requires Movable(g, rank, R, mv) && mv.j <= i < |mv.c|
    ensures mv.c[i] in rank && mv.t in rank && mv.Pull() < |g|
    ensures Kept(V(g, rank, mv.c[i], p),
                 if Leaves(g[mv.Pull()], mv.or, p) then V(g, rank, mv.t, p) else Without(g, rank, R, mv, i, p))
    decreases |mv.c| - i
  {
    ChainRanks(g, rank, R, mv);
    assert mv.c[i] in R;
    VStep(g, rank, R, mv.c[i], p);
    if i < |mv.c| - 1 {
      assert Follows(g, mv.c, i, mv.or);
      ChainValue(g, rank, R, mv, i + 1, p);
    }
  }

  /** The verdict each block of the new graph is to give. */
  ghost predicate Expected(g: Graph, rank: Rank, R: set<nat>, mv: Move, x: int, v: Option<Word>, p: Packet)
    requires Movable(g, rank, R, mv) && x in rank
  {
    && (forall i {:trigger mv.c[i]} ::
      mv.j <= i < |mv.c| - 1 && mv.c[i] == x ==> Kept(Without(g, rank, R, mv, i, p), v))
    && (x == mv.Pull() ==> mv.Top() in rank && Kept(V(g, rank, mv.Top(), p), v))
    && ((forall i {:trigger mv.c[i]} :: mv.j <= i < |mv.c| ==> mv.c[i] != x) ==> Kept(V(g, rank, x, p), v))
  }

  lemma OffChain(g: Graph, rank: Rank, R: set<nat>, mv: Move, x: int, v: Option<Word>, p: Packet)
    requires Movable(g, rank, R, mv) && x in rank && mv.Pull() in rank && rank[x] < rank[mv.Pull()]
    requires Expected(g, rank, R, mv, x, v, p)
    ensures Kept(V(g, rank, x, p), v)
  {
    forall i | mv.j <= i < |mv.c| ensures mv.c[i] != x {
      if i < |mv.c| - 1 {
        ChainFalls(g, rank, mv.c, mv.t, mv.or, i, |mv.c| - 1);
      }
    }
  }

  lemma OnChain(g: Graph, rank: Rank, R: set<nat>, mv: Move, x: int, i: nat, v: Option<Word>, p: Packet)
    requires Movable(g, rank, R, mv) && x in rank && mv.j <= i < |mv.c| - 1 && mv.c[i] == x
    requires Kept(Without(g, rank, R, mv, i, p), v)
    ensures Expected(g, rank, R, mv, x, v, p)
  {
    forall k | mv.j <= k < |mv.c| && mv.c[k] == x ensures k == i {
      if k < i { ChainFalls(g, rank, mv.c, mv.t, mv.or, k, i); }
      if i < k { ChainFalls(g, rank, mv.c, mv.t, mv.or, i, k); }
    }
  }

  lemma NewRegion(g: Graph, g': Graph, rank: Rank, R: set<nat>, mv: Move, p: Packet)
    requires Movable(g, rank, R, mv) && Moved(g, g', R, mv) && mv.Top() in rank
    ensures forall x {:trigger InRegion(g', NewRank(rank, R, mv), R, x)} ::
      x in R ==> InRegion(g', NewRank(rank, R, mv), R, x)
    ensures forall x {:trigger g'[x]} :: x in R && x < |g| ==> Goes(g'[x], p) == Goes(g[x], p)
  {
    ChainRanks(g, rank, R, mv);
    forall x | x in R ensures InRegion(g', NewRank(rank, R, mv), R, x) && x < |g| && Goes(g'[x], p) == Goes(g[x], p) {
      assert InRegion(g, rank, R, x) && MovedAt(g, g', mv, x);
      assert NodeOk(g, rank, x);
    }
  }

  ghost predicate NewAt(g: Graph, g': Graph, rank: Rank, R: set<nat>, mv: Move, x: int, p: Packet)
    requires Movable(g, rank, R, mv) && mv.Top() in rank && WellFormed(g', NewRank(rank, R, mv))
  {
    x in rank && x >= 0 && x in R && Expected(g, rank, R, mv, x, V(g', NewRank(rank, R, mv), x, p), p)
  }

  /** The pulled test itself. */
  lemma NewPull(g: Graph, g': Graph, rank: Rank, R: set<nat>, mv: Move, p: Packet)
    requires Movable(g, rank, R, mv) && Moved(g, g', R, mv) && mv.Pull() < |g| && Goes(g[mv.Pull()], p).Some?
    requires mv.Top() in rank && WellFormed(g', NewRank(rank, R, mv))
    requires mv.t in rank && NewAt(g, g', rank, R, mv, mv.t, p) && NewAt(g, g', rank, R, mv, mv.Top(), p)
    ensures NewAt(g, g', rank, R, mv, mv.Pull(), p)
  {
    var nr, x := NewRank(rank, R, mv), mv.Pull();
    ChainRanks(g, rank, R, mv);
    assert MovedAt(g, g', mv, x) && InRegion(g, rank, R, x);
    NewRegion(g, g', rank, R, mv, p);
    VStep(g', nr, R, x, p);
    OffChain(g, rank, R, mv, mv.t, V(g', nr, mv.t, p), p);
    ChainValue(g, rank, R, mv, mv.j, p);
    assert mv.c[mv.j] == mv.Top() && Goes(g[x], p).Some?;
    assert mv.c[|mv.c| - 1] == x;
    forall i | mv.j <= i < |mv.c| - 1 ensures mv.c[i] != x {
      ChainFalls(g, rank, mv.c, mv.t, mv.or, i, |mv.c| - 1);
    }
  }

  /** Where a test between the new place of the pulled one and its old place leads on. */
  ghost function NextMember(g: Graph, mv: Move, i: nat): int
    requires mv.Ok() && i < |mv.c| - 1 && mv.Pull() < |g|
  {
    if i < |mv.c| - 2 then mv.c[i + 1] else Onto(g[mv.Pull()], mv.or)
  }

  lemma MemberNext(g: Graph, g': Graph, rank: Rank, R: set<nat>, mv: Move, i: nat, p: Packet)
    requires Movable(g, rank, R, mv) && mv.Pull() < |g| && mv.Top() in rank && WellFormed(g', NewRank(rank, R, mv))
    requires mv.j <= i < |mv.c| - 1 && NewAt(g, g', rank, R, mv, NextMember(g, mv, i), p)
    ensures Kept(Without(g, rank, R, mv, i + 1, p), V(g', NewRank(rank, R, mv), NextMember(g, mv, i), p))
  {
    ChainRanks(g, rank, R, mv);
    var y := NextMember(g, mv, i);
    if i == |mv.c| - 2 {
      OffChain(g, rank, R, mv, y, V(g', NewRank(rank, R, mv), y, p), p);
    } else {
      assert mv.c[i + 1] == y;
    }
  }

  lemma MemberMoved(g: Graph, g': Graph, rank: Rank, R: set<nat>, mv: Move, i: nat)
    requires Movable(g, rank, R, mv) && Moved(g, g', R, mv) && mv.j <= i < |mv.c| - 1
    ensures mv.c[i] in R && mv.c[i] < |g| && mv.c[i] in rank && mv.Pull() < |g| && !g'[mv.c[i]].Leaf()
    ensures g'[mv.c[i]].stmts == g[mv.c[i]].stmts && g'[mv.c[i]].s == g[mv.c[i]].s
    ensures Shared(g'[mv.c[i]], mv.or) == mv.t && Onto(g'[mv.c[i]], mv.or) == NextMember(g, mv, i)
  {
    var x := mv.c[i];
    ChainRanks(g, rank, R, mv);
    assert x in R && MovedAt(g, g', mv, x);
    ChainFalls(g, rank, mv.c, mv.t, mv.or, i, |mv.c| - 1);
    SharedBelow(g, rank, mv.c, mv.t, mv.or, mv.j);
    if i < |mv.c| - 2 {
      ChainFalls(g, rank, mv.c, mv.t, mv.or, i, |mv.c| - 2);
      assert Follows(g, mv.c, i, mv.or);
      OnChainNotTop(g, rank, R, mv, i + 1);
    }
  }

  /** A test between the new place of the pulled one and its old place. */
  lemma NewMember(g: Graph, g': Graph, rank: Rank, R: set<nat>, mv: Move, i: nat, p: Packet)
    requires Movable(g, rank, R, mv) && Moved(g, g', R, mv) && mv.Pull() < |g|
    requires mv.Top() in rank && WellFormed(g', NewRank(rank, R, mv)) && mv.j <= i < |mv.c| - 1
    requires mv.t in rank && NewAt(g, g', rank, R, mv, mv.t, p)
    requires NewAt(g, g', rank, R, mv, NextMember(g, mv, i), p)
    ensures NewAt(g, g', rank, R, mv, mv.c[i], p)
  {
    var nr, x := NewRank(rank, R, mv), mv.c[i];
    ChainRanks(g, rank, R, mv);
    MemberMoved(g, g', rank, R, mv, i);
    MemberNext(g, g', rank, R, mv, i, p);
    NewRegion(g, g', rank, R, mv, p);
    VStep(g', nr, R, x, p);
    OffChain(g, rank, R, mv, mv.t, V(g', nr, mv.t, p), p);
    OnChain(g, rank, R, mv, x, i, V(g', nr, x, p), p);
  }

  lemma OnChainNotTop(g: Graph, rank: Rank, R: set<nat>, mv: Move, k: nat)
    requires Movable(g, rank, R, mv) && mv.j < k < |mv.c|
    ensures mv.c[k] != mv.Top()
  {
    ChainFalls(g, rank, mv.c, mv.t, mv.or, mv.j, k);
  }

  /** Any other block. */
  lemma NewOther(g: Graph, g': Graph, rank: Rank, R: set<nat>, mv: Move, x: nat, p: Packet)
    requires Movable(g, rank, R, mv) && Moved(g, g', R, mv) && mv.Pull() < |g| && Goes(g[mv.Pull()], p).Some?
    requires mv.Top() in rank && WellFormed(g', NewRank(rank, R, mv)) && x in R && x in rank && x < |g|
    requires forall i :: mv.j <= i < |mv.c| ==> mv.c[i] != x
    requires !g[x].Leaf() ==> NewAt(g, g', rank, R, mv, g'[x].jt, p) && NewAt(g, g', rank, R, mv, g'[x].jf, p)
    ensures NewAt(g, g', rank, R, mv, x, p)
  {
    var nr := NewRank(rank, R, mv);
    ChainRanks(g, rank, R, mv);
    assert mv.c[|mv.c| - 1] != x && mv.c[|mv.c| - 2] != x;
    assert MovedAt(g, g', mv, x) && InRegion(g, rank, R, x);
    NewRegion(g, g', rank, R, mv, p);
    VStep(g', nr, R, x, p);
    VStep(g, rank, R, x, p);
    if !g[x].Leaf() {
      var y := if Goes(g[x], p) == Some(true) then g[x].jt else g[x].jf;
      if y == mv.Top() {
        assert NewAt(g, g', rank, R, mv, mv.Pull(), p);
      } else {
        forall i | mv.j <= i < |mv.c| ensures mv.c[i] != y {
          if i > mv.j {
            assert Entered(g, mv, i, x);
          }
        }
        assert NewAt(g, g', rank, R, mv, y, p);
      }
    }
  }

  /** What the value of a chain member depends on lies below it. */
  lemma MemberSuccs(g: Graph, rank: Rank, R: set<nat>, mv: Move, i: nat)
    requires Movable(g, rank, R, mv) && mv.Top() in rank && mv.Pull() < |g| && mv.j <= i < |mv.c| - 1
    ensures
      var nr, next := NewRank(rank, R, mv), NextMember(g, mv, i);
      && mv.c[i] in nr && mv.t in nr && next in nr && next >= 0 && mv.t >= 0 && next in R && mv.t in R
      && nr[mv.t] < nr[mv.c[i]] && nr[next] < nr[mv.c[i]]
  {
    ChainRanks(g, rank, R, mv);
    assert mv.c[i] in R;
    SharedBelow(g, rank, mv.c, mv.t, mv.or, i);
    ChainFalls(g, rank, mv.c, mv.t, mv.or, i, |mv.c| - 1);
    if i < |mv.c| - 2 {
      assert mv.c[i + 1] in R;
      ChainFalls(g, rank, mv.c, mv.t, mv.or, i, i + 1);
      OnChainNotPull(g, rank, R, mv, i + 1);
    }
  }

  lemma {:induction false} NewValue(g: Graph, g': Graph, rank: Rank, R: set<nat>, mv: Move, x: nat, p: Packet)
    requires Movable(g, rank, R, mv) && Moved(g, g', R, mv) && mv.Pull() < |g| && Goes(g[mv.Pull()], p).Some?
    requires mv.Top() in rank && WellFormed(g', NewRank(rank, R, mv)) && x in R && x in rank
    ensures NewAt(g, g', rank, R, mv, x, p)
    decreases NewRank(rank, R, mv)[x]
  {
    if x == mv.Pull() {
      ChainRanks(g, rank, R, mv);
      NewValue(g, g', rank, R, mv, mv.t, p);
      NewValue(g, g', rank, R, mv, mv.Top(), p);
      NewPull(g, g', rank, R, mv, p);
    } else if i :| mv.j <= i < |mv.c| - 1 && mv.c[i] == x {
      MemberSuccs(g, rank, R, mv, i);
      NewValue(g, g', rank, R, mv, mv.t, p);
      NewValue(g, g', rank, R, mv, NextMember(g, mv, i), p);
      NewMember(g, g', rank, R, mv, i, p);
    } else {
      assert InRegion(g, rank, R, x) && NodeOk(g', NewRank(rank, R, mv), x) && MovedAt(g, g', mv, x);
      if !g[x].Leaf() {
        NewValue(g, g', rank, R, mv, g'[x].jt, p);
        NewValue(g, g', rank, R, mv, g'[x].jf, p);
      }
      NewOther(g, g', rank, R, mv, x, p);
    }
  }

  lemma OnChainNotPull(g: Graph, rank: Rank, R: set<nat>, mv: Move, k: nat)
    requires Movable(g, rank, R, mv) && k < |mv.c| - 1
    ensures mv.c[k] != mv.Pull()
  {
    ChainFalls(g, rank, mv.c, mv.t, mv.or, k, |mv.c| - 1);
  }

  /** The state does not matter to a graph of closed blocks. */
  lemma ZeroState(g: Graph, rank: Rank, R: set<nat>, x: nat, st: Store, p: Packet)
    requires WellFormed(g, rank) && x in rank && x in R
    requires forall y {:trigger InRegion(g, rank, R, y)} :: y in R ==> InRegion(g, rank, R, y)
    ensures Run(g, rank, x, st, p) == V(g, rank, x, p)
  {
    RegionClosed(g, rank, R, x);
    RunAnyState(g, rank, x, st, p);
  }

  /** Where control goes next from a block off the moved part of the chain: to its top, to
      where the pulled test now is instead, or again to such a block. */
  lemma StepOff(g: Graph, g': Graph, rank: Rank, R: set<nat>, mv: Move, x: nat, p: Packet)
    requires Movable(g, rank, R, mv) && Moved(g, g', R, mv) && mv.Top() in rank
    requires x in R && x in rank && x < |g| && !g[x].Leaf() && Goes(g[x], p).Some? && OffMoved(mv, x)
    ensures
      var y := Onward(g, x, p);
      && Onward(g', x, p) == NewSucc(mv, y) && y in R && y in rank && y >= 0 && rank[y] < rank[x]
      && (y != mv.Top() ==> OffMoved(mv, y))
  {
    ChainRanks(g, rank, R, mv);
    assert mv.c[|mv.c| - 1] != x && mv.c[|mv.c| - 2] != x;
    assert MovedAt(g, g', mv, x) && InRegion(g, rank, R, x) && NodeOk(g, rank, x);
    var y := Onward(g, x, p);
    forall i | mv.j < i < |mv.c| ensures mv.c[i] != y {
      assert Entered(g, mv, i, x);
    }
  }

  /** The block is not one of those that change places. */
  ghost predicate OffMoved(mv: Move, x: int) {
    forall i {:trigger mv.c[i]} :: mv.j <= i < |mv.c| ==> mv.c[i] != x
  }

  /** When the pulled test aborts, so does every run that comes to the chain; no other run
      notices. */
  lemma {:induction false} PullAborts(g: Graph, g': Graph, rank: Rank, R: set<nat>, mv: Move, x: nat, p: Packet)
    requires Movable(g, rank, R, mv) && Moved(g, g', R, mv) && mv.Pull() < |g| && Goes(g[mv.Pull()], p) == None
    requires mv.Top() in rank && WellFormed(g', NewRank(rank, R, mv)) && x in R && x in rank && OffMoved(mv, x)
    ensures V(g', NewRank(rank, R, mv), x, p) ==
      if OnTrace(g, rank, x, mv.Top(), p) then None else V(g, rank, x, p)
    decreases rank[x]
  {
    var nr := NewRank(rank, R, mv);
    NewRegion(g, g', rank, R, mv, p);
    VStep(g, rank, R, x, p);
    VStep(g', nr, R, x, p);
    assert InRegion(g, rank, R, x) && MovedAt(g, g', mv, x) && NodeOk(g, rank, x);
    if !g[x].Leaf() && Goes(g[x], p).Some? {
      var y := Onward(g, x, p);
      StepOff(g, g', rank, R, mv, x, p);
      if y == mv.Top() {
        ChainRanks(g, rank, R, mv);
        VStep(g', nr, R, mv.Pull(), p);
      } else {
        PullAborts(g, g', rank, R, mv, y, p);
      }
    }
  }

  /** From a block off the moved part of the chain, whatever the state, the verdict is kept
      exactly when the pulled test does not abort, the run never comes to the place it is
      pulled to, or there was no verdict. */
  lemma MovedExact(g: Graph, g': Graph, rank: Rank, R: set<nat>, mv: Move, x: nat, st: Store, p: Packet)
    requires Movable(g, rank, R, mv) && Moved(g, g', R, mv) && mv.Pull() < |g|
    requires mv.Top() in rank && WellFormed(g', NewRank(rank, R, mv)) && x in R && x in rank && OffMoved(mv, x)
    ensures Kept(Run(g, rank, x, st, p), Run(g', NewRank(rank, R, mv), x, st, p)) <==>
      Goes(g[mv.Pull()], p).Some? || !OnTrace(g, rank, x, mv.Top(), p) || Run(g, rank, x, st, p) == None
    ensures Goes(g[mv.Pull()], p) == None && OnTrace(g, rank, x, mv.Top(), p) ==>
      Run(g', NewRank(rank, R, mv), x, st, p) == None
  {
    ZeroState(g, rank, R, x, st, p);
    NewRegion(g, g', rank, R, mv, p);
    ZeroState(g', NewRank(rank, R, mv), R, x, st, p);
    if Goes(g[mv.Pull()], p).Some? {
      NewValue(g, g', rank, R, mv, x, p);
    } else {
      PullAborts(g, g', rank, R, mv, x, p);
    }
  }

  /** Asking the pulled test first keeps the verdict of the chain exactly when that test
      does not abort or there was no verdict. */
  lemma PullExact(g: Graph, g': Graph, rank: Rank, R: set<nat>, mv: Move, p: Packet)
    requires Movable(g, rank, R, mv) && Moved(g, g', R, mv)
    requires mv.Top() in rank && WellFormed(g', NewRank(rank, R, mv))
    ensures mv.Pull() in NewRank(rank, R, mv) && mv.Pull() < |g|
    ensures Kept(V(g, rank, mv.Top(), p), V(g', NewRank(rank, R, mv), mv.Pull(), p)) <==>
      Goes(g[mv.Pull()], p).Some? || V(g, rank, mv.Top(), p) == None
  {
    ChainRanks(g, rank, R, mv);
    if Goes(g[mv.Pull()], p).Some? {
      NewValue(g, g', rank, R, mv, mv.Pull(), p);
    } else {
      NewRegion(g, g', rank, R, mv, p);
      VStep(g', NewRank(rank, R, mv), R, mv.Pull(), p);
    }
  }

  // ----- finding and making the move

  /** What has been computed for a graph: numbers on exit, dominators and in-edges. */
  datatype Survey = Survey(val: seq<Vals>, dom: seq<set<nat>>, inEdges: seq<seq<nat>>) {
    predicate Sized(n: nat) {
      |val| == |dom| == |inEdges| == n
    }
  }

  /** `c` is a chain from `b` of blocks that `b` dominates and that share its exit. */
  ghost predicate ChainFrom(g: Graph, rank: Rank, root: nat, sv: Survey, b: nat, or: bool, c: seq<nat>)
    requires b < |g| == |sv.dom| && WellFormed(g, rank) && root in rank
  {
    && c != [] && c[0] == b && Chain(g, c, Shared(g[b], or), or) && Ranked(rank, c)
    && forall i {:trigger c[i]} :: 0 <= i < |c| ==> c[i] in Reach(g, rank, root) && b in sv.dom[c[i]]
  }

  /** The pattern looked for: tests of `v`, then tests of something else from `j` on, and at
      the end of the chain a test of `v` again. */
  ghost predicate Pattern(val: seq<Vals>, c: seq<nat>, j: nat, v: nat)
    requires forall i {:trigger c[i]} :: 0 <= i < |c| ==> c[i] < |val|
  {
    && j + 1 < |c| && val[c[|c| - 1]][A] == v
    && (forall i {:trigger c[i]} :: 0 <= i < j ==> val[c[i]][A] == v)
    && (forall i {:trigger c[i]} :: j <= i < |c| - 1 ==> val[c[i]][A] != v)
  }

  ghost predicate Pullable(g: Graph, rank: Rank, root: nat, sv: Survey, b: nat, or: bool, v: nat, c: seq<nat>, j: nat)
    requires b < |g| && sv.Sized(|g|) && WellFormed(g, rank) && root in rank
  {
    ChainFrom(g, rank, root, sv, b, or, c) && Pattern(sv.val, c, j, v)
  }

  ghost predicate NonePullable(g: Graph, rank: Rank, root: nat, sv: Survey, b: nat, or: bool, v: nat)
    requires b < |g| && sv.Sized(|g|) && WellFormed(g, rank) && root in rank
  {
    forall c, j {:trigger Pullable(g, rank, root, sv, b, or, v, c, j)} :: !Pullable(g, rank, root, sv, b, or, v, c, j)
  }

  /** All predecessors of `b`, of which there is one, leave `v` in the accumulator. */
  ghost predicate AllLeave(g: Graph, sv: Survey, b: nat, v: nat)
    requires b < |g| && sv.Sized(|g|)
  {
    && sv.inEdges[b] != []
    && forall k {:trigger sv.inEdges[b][k]} :: 0 <= k < |sv.inEdges[b]| ==>
         var u := Pred(g, sv.inEdges[b][k]);
         0 <= u < |g| && sv.val[u][A] == v
  }

  class Puller {
    ghost const rank: Rank
    const val: seq<Vals>
    const dom: seq<set<nat>>
    const inEdges: seq<seq<nat>>
    var g: Graph

    constructor (g: Graph, ghost rank: Rank, val: seq<Vals>, dom: seq<set<nat>>, inEdges: seq<seq<nat>>)
      ensures this.g == g && this.rank == rank && this.val == val && this.dom == dom && this.inEdges == inEdges
    {
      this.g, this.rank, this.val, this.dom, this.inEdges := g, rank, val, dom, inEdges;
    }

    /** The graph, with dominators and in-edges computed for it. */
    ghost predicate Fresh(root: nat)
      reads this
    {
      && WellFormed(g, rank) && root in rank && root < |g| && |val| == |dom| == |g|
      && |inEdges| == |g| && forall u {:trigger Opened(u)} :: Opened(u) ==> Computed(root)
    }

    ghost predicate Computed(root: nat)
      reads this
      requires WellFormed(g, rank) && root in rank
    {
      && ClosedGraph(g, Reach(g, rank, root))
      && Visited(BlockNet(g, rank, root), Reach(g, rank, root), dom, true)
      && InEdges(g, Reach(g, rank, root), inEdges)
    }

    /** One more block of the chain: it shares the exit of `b`, and `b` dominates it. */
    predicate Belongs(d: int, b: nat, or: bool)
      reads this
      requires b < |g| && |dom| == |g|
    {
      0 <= d < |g| && Shared(g[d], or) == Shared(g[b], or) && b in dom[d] && !g[d].Leaf()
    }

    ghost function Facts(): Survey
      reads this
    {
      Survey(val, dom, inEdges)
    }

    ghost predicate ChainTo(root: nat, b: nat, or: bool, c: seq<nat>, d: nat)
      reads this
      requires b < |g| && |dom| == |g| && WellFormed(g, rank) && root in rank
    {
      ChainFrom(g, rank, root, Facts(), b, or, c) && c[|c| - 1] == d
    }

    lemma ChainMore(root: nat, b: nat, or: bool, c: seq<nat>, d: nat, e: int)
      requires b < |g| && |dom| == |g| && WellFormed(g, rank) && root in rank && ChainTo(root, b, or, c, d)
      requires d < |g| && e == Onto(g[d], or) && Belongs(e, b, or)
      ensures ChainTo(root, b, or, c + [e], e)
    {
      var c' := c + [e as nat];
      assert c[|c| - 1] == d && d in Reach(g, rank, root) && d in rank;
      assert NodeOk(g, rank, d);
      ReachSuccs(g, rank, root, d);
      forall i | 0 <= i < |c'| - 1 ensures Follows(g, c', i, or) {
        if i < |c| - 1 {
          assert Follows(g, c, i, or);
        }
      }
    }

    /** Chains from the same block agree as far as both go. */
    lemma {:induction false} SameChain(root: nat, b: nat, or: bool, c: seq<nat>, d: nat, c': seq<nat>, d': nat, i: nat)
      requires b < |g| && |dom| == |g| && WellFormed(g, rank) && root in rank
      requires ChainTo(root, b, or, c, d) && ChainTo(root, b, or, c', d') && i < |c| && i < |c'|
      ensures c[i] == c'[i]
      decreases i
    {
      if i > 0 {
        SameChain(root, b, or, c, d, c', d', i - 1);
        assert Follows(g, c, i - 1, or) && Follows(g, c', i - 1, or);
      }
    }

    /** The chain cannot be longer than `c`. */
    ghost predicate Stuck(root: nat, b: nat, or: bool, c: seq<nat>)
      reads this
      requires b < |g| && |dom| == |g| && WellFormed(g, rank) && root in rank
    {
      if c == [] then !Belongs(b, b, or)
      else ChainTo(root, b, or, c, c[|c| - 1]) && c[|c| - 1] < |g| && !Belongs(Onto(g[c[|c| - 1]], or), b, or)
    }

    lemma StuckLongest(root: nat, b: nat, or: bool, c: seq<nat>, c': seq<nat>, d': nat)
      requires b < |g| && |dom| == |g| && WellFormed(g, rank) && root in rank
      requires Stuck(root, b, or, c) && ChainTo(root, b, or, c', d')
      ensures |c'| <= |c|
    {
      if |c'| > |c| {
        if c != [] {
          SameChain(root, b, or, c, c[|c| - 1], c', d', |c| - 1);
          assert Follows(g, c', |c| - 1, or);
        }
        ChainMember(root, b, or, c', d', |c|);
      }
    }

    lemma ChainMember(root: nat, b: nat, or: bool, c: seq<nat>, d: nat, i: nat)
      requires b < |g| && |dom| == |g| && WellFormed(g, rank) && root in rank && ChainTo(root, b, or, c, d) && i < |c|
      ensures Belongs(c[i], b, or) && (i == 0 ==> c[i] == b)
    {
      assert c[i] in Reach(g, rank, root) && b in dom[c[i]];
    }

    lemma OneValue(b: nat, v: nat)
      requires b < |g| && |val| == |dom| == |inEdges| == |g| && AllLeave(g, Facts(), b, v)
      ensures forall w {:trigger AllLeave(g, Facts(), b, w)} :: AllLeave(g, Facts(), b, w) ==> w == v
    {
      forall w | AllLeave(g, Facts(), b, w) ensures w == v {
        assert val[Pred(g, inEdges[b][0])][A] == v;
        assert inEdges[b][0] == inEdges[b][0];
      }
    }

    /** Nothing but tests of `v`: there is nothing to pull above. */
    lemma AllSame(root: nat, b: nat, or: bool, c: seq<nat>, v: nat, c': seq<nat>, j: nat)
      requires b < |g| && |val| == |dom| == |inEdges| == |g| && WellFormed(g, rank) && root in rank &&
        Stuck(root, b, or, c)
      requires forall i {:trigger c[i]} :: 0 <= i < |c| ==> c[i] < |g| && val[c[i]][A] == v
      ensures !Pullable(g, rank, root, Facts(), b, or, v, c', j)
    {
      if Pullable(g, rank, root, Facts(), b, or, v, c', j) {
        StuckLongest(root, b, or, c, c', c'[|c'| - 1]);
        SameChain(root, b, or, c, c[|c| - 1], c', c'[|c'| - 1], j);
      }
    }

    lemma NeverDiffers(root: nat, b: nat, or: bool, c: seq<nat>, v: nat)
      requires b < |g| && |val| == |dom| == |inEdges| == |g| && WellFormed(g, rank) && root in rank &&
        Stuck(root, b, or, c)
      requires forall i {:trigger c[i]} :: 0 <= i < |c| ==> c[i] < |g| && val[c[i]][A] == v
      ensures NonePullable(g, rank, root, Facts(), b, or, v)
    {
      forall c', j ensures !Pullable(g, rank, root, Facts(), b, or, v, c', j) {
        AllSame(root, b, or, c, v, c', j);
      }
    }

    /** No further test of `v`: there is nothing to pull. */
    lemma NoneAgain(root: nat, b: nat, or: bool, c: seq<nat>, v: nat, n: nat, c': seq<nat>, j: nat)
      requires b < |g| && |val| == |dom| == |inEdges| == |g| && WellFormed(g, rank) && root in rank &&
        Stuck(root, b, or, c)
      requires n < |c| && forall i {:trigger c[i]} :: 0 <= i < |c| ==> c[i] < |g| && (val[c[i]][A] == v <==> i < n)
      ensures !Pullable(g, rank, root, Facts(), b, or, v, c', j)
    {
      if Pullable(g, rank, root, Facts(), b, or, v, c', j) {
        var k := |c'| - 1;
        StuckLongest(root, b, or, c, c', c'[k]);
        SameChain(root, b, or, c, c[|c| - 1], c', c'[k], j);
        SameChain(root, b, or, c, c[|c| - 1], c', c'[k], k);
      }
    }

    lemma NeverAgain(root: nat, b: nat, or: bool, c: seq<nat>, v: nat, n: nat)
      requires b < |g| && |val| == |dom| == |inEdges| == |g| && WellFormed(g, rank) && root in rank &&
        Stuck(root, b, or, c)
      requires n < |c| && forall i {:trigger c[i]} :: 0 <= i < |c| ==> c[i] < |g| && (val[c[i]][A] == v <==> i < n)
      ensures NonePullable(g, rank, root, Facts(), b, or, v)
    {
      forall c', j ensures !Pullable(g, rank, root, Facts(), b, or, v, c', j) {
        NoneAgain(root, b, or, c, v, n, c', j);
      }
    }

    /** Goes down from `b` past tests of the value its predecessors leave. `prev` is the
        block before the one found, none at the top. */
    method FindDiff(root: nat, b: nat, or: bool, v: nat)
      returns (found: bool, d: nat, prev: Option<nat>, ghost c: seq<nat>)
      requires Fresh(root) && b < |g| && b in Reach(g, rank, root) && b in rank && !g[b].Leaf()
      ensures found ==> d < |g| && val[d][A] != v
      ensures found ==> ChainTo(root, b, or, c, d)
      ensures found ==> prev == if |c| == 1 then None else Some(c[|c| - 2])
      ensures forall i {:trigger c[i]} :: 0 <= i < |c| ==> c[i] < |g| && (val[c[i]][A] == v <==> !found || i < |c| - 1)
      ensures !found ==> Stuck(root, b, or, c)
    {
      d, prev, c, found := b, None, [], false;
      if !Belongs(b, b, or) {
        return;
      }
      c := [b];
      while val[d][A] == v
        invariant d < |g| && d in rank && ChainTo(root, b, or, c, d)
        invariant prev == if |c| == 1 then None else Some(c[|c| - 2])
        invariant forall i {:trigger c[i]} :: 0 <= i < |c| ==> c[i] < |g| && (i < |c| - 1 ==> val[c[i]][A] == v)
        decreases rank[d]
      {
        var e := Onto(g[d], or);
        if !Belongs(e, b, or) {
          return;
        }
        ChainMore(root, b, or, c, d, e);
        assert NodeOk(g, rank, d);
        prev, d, c := Some(d), e, c + [e];
      }
      found := true;
    }

    /** Goes on down to the next test of that value. */
    method FindSame(root: nat, b: nat, or: bool, v: nat, d: nat, ghost c0: seq<nat>)
      returns (found: bool, last: nat, pull: nat, ghost c: seq<nat>)
      requires Fresh(root) && b < |g| && d < |g| && ChainTo(root, b, or, c0, d)
      requires forall i {:trigger c0[i]} :: 0 <= i < |c0| ==> c0[i] < |g| && (val[c0[i]][A] == v <==> i < |c0| - 1)
      ensures found ==> ChainTo(root, b, or, c, pull) && |c| > |c0| && last == c[|c| - 2]
      ensures found ==> c[|c0| - 1] == d && (|c0| > 1 ==> c[|c0| - 2] == c0[|c0| - 2])
      ensures |c| >= |c0| && forall i {:trigger c[i]} :: 0 <= i < |c| ==>
        c[i] < |g| && (val[c[i]][A] == v <==> i < |c0| - 1 || (found && i == |c| - 1))
      ensures !found ==> Stuck(root, b, or, c)
    {
      found, last, pull, c := false, d, d, c0;
      assert c0[|c0| - 1] == d && d in rank;
      var e := Onto(g[d], or);
      while Belongs(e, b, or)
        invariant last < |g| && last in rank && ChainTo(root, b, or, c, last) && e == Onto(g[last], or)
        invariant |c| >= |c0| && c[..|c0|] == c0
        invariant forall i {:trigger c[i]} :: 0 <= i < |c| ==> c[i] < |g| && (val[c[i]][A] == v <==> i < |c0| - 1)
        decreases rank[last]
      {
        ChainMore(root, b, or, c, last, e);
        assert NodeOk(g, rank, last);
        c := c + [e];
        if val[e][A] == v {
          found, pull := true, e;
          return;
        }
        last, e := e, Onto(g[e], or);
      }
    }

    lemma ChainMovable(root: nat, b: nat, or: bool, c: seq<nat>, pull: nat, j: nat) returns (mv: Move)
      requires Fresh(root) && b < |g| && ChainTo(root, b, or, c, pull) && j + 1 < |c|
      ensures mv == Move(c, j, Shared(g[b], or), or) && Movable(g, rank, Reach(g, rank, root), mv)
    {
      assert Opened(Key);
      ghost var R := Reach(g, rank, root);
      mv := Move(c, j, Shared(g[b], or), or);
      forall x | x in R ensures InRegion(g, rank, R, x) {
        ReachRanked(g, rank, root, x);
        assert ClosedBlock(g[x]);
        if !g[x].Leaf() {
          ReachSuccs(g, rank, root, x);
        }
      }
      forall i, x | 0 < i < |c| && x in R && x < |g| ensures Entered(g, mv, i, x) {
        assert InRegion(g, rank, R, x) && NodeOk(g, rank, x);
        assert c[i] in R && b in dom[c[i]];
        if g[x].jt == c[i] || g[x].jf == c[i] {
          SingleEntry(g, rank, root, dom, c, Shared(g[b], or), or, i, x);
        }
      }
    }

    /** Tries to pull a test up the chain that starts at `b`. When it does, `mv` says
        which; a block with no predecessor has no chain. */
    method Pull(root: nat, b: nat, or: bool) returns (moved: bool, ghost mv: Move)
      requires Fresh(root) && b < |g| && b in Reach(g, rank, root) && b in rank && !g[b].Leaf()
      modifies this`g
      ensures OnlyPointers(old(g), g, Reach(old(g), rank, root)) && (!moved ==> g == old(g))
      ensures moved ==>
        Movable(old(g), rank, Reach(old(g), rank, root), mv) && Moved(old(g), g, Reach(old(g), rank, root), mv)
      ensures moved ==> forall i {:trigger mv.c[i]} :: 0 <= i < |mv.c| ==> mv.c[i] != root
      ensures moved ==> exists v {:trigger AllLeave(old(g), Facts(), b, v)} ::
        AllLeave(old(g), Facts(), b, v) && Pullable(old(g), rank, root, Facts(), b, or, v, mv.c, mv.j)
      ensures !moved ==> forall v {:trigger AllLeave(g, Facts(), b, v)} ::
        AllLeave(g, Facts(), b, v) ==> NonePullable(g, rank, root, Facts(), b, or, v)
    {
      moved, mv := false, Move([], 0, 0, or);
      var v := SameValue(root, b);
      if v == None {
        return;
      }
      OneValue(b, v.value);
      moved, mv := PullFrom(root, b, or, v.value);
    }

    method PullFrom(root: nat, b: nat, or: bool, v: nat) returns (moved: bool, ghost mv: Move)
      requires Fresh(root) && b < |g| && b in Reach(g, rank, root) && b in rank && !g[b].Leaf() &&
        AllLeave(g, Facts(), b, v)
      modifies this`g
      ensures OnlyPointers(old(g), g, Reach(old(g), rank, root))
      ensures !moved ==> g == old(g) && NonePullable(g, rank, root, Facts(), b, or, v)
      ensures moved ==>
        Movable(old(g), rank, Reach(old(g), rank, root), mv) && Moved(old(g), g, Reach(old(g), rank, root), mv)
      ensures moved ==> Pullable(old(g), rank, root, Facts(), b, or, v, mv.c, mv.j)
      ensures moved ==> forall i {:trigger mv.c[i]} :: 0 <= i < |mv.c| ==> mv.c[i] != root
    {
      moved, mv := false, Move([], 0, 0, or);
      var found, d, prev, c0 := FindDiff(root, b, or, v);
      if !found {
        NeverDiffers(root, b, or, c0, v);
        return;
      }
      var found2, last, pull, c := FindSame(root, b, or, v, d, c0);
      if !found2 {
        NeverAgain(root, b, or, c, v, |c0| - 1);
        return;
      }
      moved := true;
      mv := MoveUp(root, b, or, d, prev, last, pull, c, |c0| - 1);
    }

    /** Moves the test at the end of the chain in front of `d`. */
    method MoveUp(ghost root: nat, b: nat, or: bool, d: nat, prev: Option<nat>, last: nat, pull: nat,
                  ghost c: seq<nat>, ghost j: nat)
      returns (ghost mv: Move)
      requires Fresh(root) && b < |g| && inEdges[b] != [] && ChainTo(root, b, or, c, pull) && j + 1 < |c|
      requires c[j] == d && last == c[|c| - 2] && prev == if j == 0 then None else Some(c[j - 1])
      modifies this`g
      ensures Movable(old(g), rank, Reach(old(g), rank, root), mv) && Moved(old(g), g, Reach(old(g), rank, root), mv)
      ensures mv.c == c && mv.j == j && OnlyPointers(old(g), g, Reach(old(g), rank, root))
      ensures forall i {:trigger mv.c[i]} :: 0 <= i < |mv.c| ==> mv.c[i] != root
    {
      mv := ChainMovable(root, b, or, c, pull, j);
      NotRoot(root, b, or, c, pull, inEdges[b]);
      Splice(root, or, b, d, prev, last, pull, inEdges[b], mv);
    }

    /** The number all predecessors leave in the accumulator. */
    method SameValue(ghost root: nat, b: nat) returns (v: Option<nat>)
      requires Fresh(root) && b < |g|
      ensures v.Some? ==> AllLeave(g, Facts(), b, v.value)
      ensures v == None ==> forall w {:trigger AllLeave(g, Facts(), b, w)} :: !AllLeave(g, Facts(), b, w)
    {
      var list := inEdges[b];
      if list == [] {
        return None;
      }
      InListed(root, b, list);
      assert Into(g, Reach(g, rank, root), list[0], b);
      v := Some(val[Pred(g, list[0])][A]);
      var k := 1;
      while k < |list|
        invariant 1 <= k <= |list|
        invariant forall i {:trigger list[i]} :: 0 <= i < k ==>
          0 <= Pred(g, list[i]) < |val| && val[Pred(g, list[i])][A] == v.value
      {
        assert Into(g, Reach(g, rank, root), list[k], b);
        if val[Pred(g, list[k])][A] != v.value {
          return None;
        }
        k := k + 1;
      }
    }

    lemma InListed(root: nat, b: nat, list: seq<nat>)
      requires Fresh(root) && b < |g| && list == inEdges[b]
      ensures NoRepeat(list)
      ensures forall k {:trigger list[k]} :: 0 <= k < |list| ==> Into(g, Reach(g, rank, root), list[k], b)
    {
      assert Opened(Key);
      assert EdgesListed(g, Reach(g, rank, root), list, b);
      forall k | 0 <= k < |list| ensures Into(g, Reach(g, rank, root), list[k], b) {
        ElemsIn(list, list[k]);
      }
    }

    lemma NotRoot(root: nat, b: nat, or: bool, c: seq<nat>, pull: nat, list: seq<nat>)
      requires Fresh(root) && b < |g| && ChainTo(root, b, or, c, pull) && list == inEdges[b] && list != []
      ensures forall i {:trigger c[i]} :: 0 <= i < |c| ==> c[i] != root
    {
      InListed(root, b, list);
      assert Into(g, Reach(g, rank, root), list[0], b);
      var u := Pred(g, list[0]);
      ReachRanked(g, rank, root, u);
      assert NodeOk(g, rank, u);
      assert c[0] == b;
      forall i | 0 <= i < |c| ensures c[i] != root {
        if i > 0 {
          ChainFalls(g, rank, c, Shared(g[b], or), or, 0, i);
        }
      }
    }

    /** Rewrites the pointers: the one to the pulled block, its own, and those to the
        block it is to precede. */
    method Splice(ghost root: nat, or: bool, b: nat, d: nat, prev: Option<nat>, last: nat, pull: nat, list: seq<nat>,
                  ghost mv: Move)
      requires Fresh(root) && Movable(g, rank, Reach(g, rank, root), mv) && b < |g| && list == inEdges[b]
      requires mv.or == or && mv.c[0] == b && mv.Top() == d && mv.Last() == last && mv.Pull() == pull
      requires prev == if mv.j == 0 then None else Some(mv.c[mv.j - 1])
      requires d < |g| && last < |g| && pull < |g| && (prev.Some? ==> prev.value < |g|)
      modifies this`g
      ensures Moved(old(g), g, Reach(old(g), rank, root), mv) && OnlyPointers(old(g), g, Reach(old(g), rank, root))
    {
      assert Opened(Key);
      ghost var g0, R := g, Reach(g, rank, root);
      g := g[last := SetOnto(g[last], or, Onto(g[pull], or))];
      g := g[pull := SetOnto(g[pull], or, d)];
      assert g == Spliced(g0, mv);
      if prev == None {
        assert EdgesListed(g0, R, list, b);
        PredsUnchanged(g0, rank, R, mv, list);
        RedirectIn(list, b, pull);
        TopMoved(g0, g, rank, R, mv, list);
        TopPointers(g0, g, rank, R, mv, list);
      } else {
        g := g[prev.value := SetOnto(g[prev.value], or, pull)];
        InsideMoved(g0, g, rank, R, mv);
      }
    }

    /** Makes every predecessor of `b` point at the pulled block instead. An edge record
        does not say which branch it is, so the true branch is tried first. */
    method RedirectIn(list: seq<nat>, b: nat, pull: nat)
      requires NoRepeat(list) && pull != b && PredsOf(g, Elems(list), b)
      modifies this`g
      ensures |g| == |old(g)|
      ensures forall x {:trigger g[x]} :: 0 <= x < |g| ==> g[x] == Redirected(old(g)[x], |g|, x, Elems(list), pull)
    {
      var k := 0;
      ghost var g0, E := g, Elems(list);
      assert list[..0] == [] && Elems([]) == {};
      while k < |list|
        invariant 0 <= k <= |list| && |g| == |g0|
        invariant forall x {:trigger Partly(g0, g, E, Elems(list[..k]), x, b, pull)} ::
          0 <= x < |g| ==> Partly(g0, g, E, Elems(list[..k]), x, b, pull)
      {
        var e := list[k];
        ElemsIn(list, e);
        NoRepeatAt(list, k);
        PrefixSubset(list, k);
        assert PredOf(g0, E, e, b);
        var x := Pred(g, e);
        PartlyStep(g0, g, E, Elems(list[..k]), e, b, pull);
        g := RedirectEdge(g, x, b, pull);
        k := k + 1;
      }
      assert list[..|list|] == list;
      forall x | 0 <= x < |g| ensures g[x] == Redirected(g0[x], |g|, x, E, pull) {
        assert Partly(g0, g, E, Elems(list[..k]), x, b, pull);
      }
    }
  }

  function RedirectEdge(g: Graph, x: nat, b: nat, pull: nat): Graph
    requires x < |g|
  {
    g[x := if g[x].jt == b then g[x].(jt := pull) else g[x].(jf := pull)]
  }

  lemma PartlyStep(g0: Graph, g: Graph, E: set<nat>, D: set<nat>, e: nat, b: nat, pull: nat)
    requires |g| == |g0| && e in E && e !in D && D <= E && PredOf(g0, E, e, b) && pull != b
    requires forall x {:trigger Partly(g0, g, E, D, x, b, pull)} :: 0 <= x < |g| ==> Partly(g0, g, E, D, x, b, pull)
    ensures
      var g' := RedirectEdge(g, Pred(g, e), b, pull);
      forall x {:trigger Partly(g0, g', E, D + {e}, x, b, pull)} ::
        0 <= x < |g'| ==> Partly(g0, g', E, D + {e}, x, b, pull)
  {
    var y, D', g' := Pred(g, e), D + {e}, RedirectEdge(g, Pred(g, e), b, pull);
    forall x | 0 <= x < |g'| ensures Partly(g0, g', E, D', x, b, pull) {
      assert Partly(g0, g, E, D, x, b, pull);
    }
  }

  lemma PrefixSubset(list: seq<nat>, k: nat)
    requires k < |list|
    ensures Elems(list[..k]) <= Elems(list) && Elems(list[..k + 1]) == Elems(list[..k]) + {list[k]}
    ensures Elems(list[..k + 1]) <= Elems(list)
  {
    assert list[..k + 1][..k] == list[..k];
    PrefixElems(list[..k], list);
    PrefixElems(list[..k + 1], list);
  }

  /** The edges of a predecessor that lead to `b` are exactly those in the set. */
  ghost predicate PredOf(g: Graph, E: set<nat>, e: nat, b: nat) {
    && e < 2 * |g| && 0 <= Pred(g, e) < |g|
    && var x := Pred(g, e);
    && (x in E <==> g[x].jt == b) && (|g| + x in E <==> g[x].jf == b)
  }

  ghost predicate PredsOf(g: Graph, E: set<nat>, b: nat) {
    forall e {:trigger PredOf(g, E, e, b)} :: e in E ==> PredOf(g, E, e, b)
  }

  ghost function Redirected(n: Node, size: nat, x: nat, E: set<nat>, pull: nat): Node {
    Node(n.stmts, n.s, if x in E then pull else n.jt, if size + x in E then pull else n.jf)
  }

  /** The block when the edges in `D` have been gone through. */
  ghost predicate Partly(g0: Graph, g: Graph, E: set<nat>, D: set<nat>, x: nat, b: nat, pull: nat)
    requires x < |g| == |g0|
  {
    var n, n', et, ef := g0[x], g[x], x, |g| + x;
    && n'.stmts == n.stmts && n'.s == n.s
    && (if et in E && ef in E then
          n'.jt == (if et in D || ef in D then pull else n.jt) && n'.jf == (if et in D && ef in D then pull else n.jf)
        else
          n'.jt == (if et in D then pull else n.jt) && n'.jf == (if ef in D then pull else n.jf))
  }

  // ----- what the rewritten pointers amount to

  ghost function Spliced(g: Graph, mv: Move): Graph
    requires mv.Ok() && mv.Last() < |g| && mv.Pull() < |g|
  {
    var g1 := g[mv.Last() := SetOnto(g[mv.Last()], mv.or, Onto(g[mv.Pull()], mv.or))];
    g1[mv.Pull() := SetOnto(g1[mv.Pull()], mv.or, mv.Top())]
  }

  /** A block above the chain is none of its lower members. */
  lemma AboveChain(g: Graph, rank: Rank, R: set<nat>, mv: Move, x: nat)
    requires Movable(g, rank, R, mv) && x in rank && mv.Top() in rank && rank[x] > rank[mv.Top()]
    ensures x != mv.Last() && x != mv.Pull() && x != mv.Top()
  {
    ChainRanks(g, rank, R, mv);
  }

  lemma PredsUnchanged(g: Graph, rank: Rank, R: set<nat>, mv: Move, list: seq<nat>)
    requires Movable(g, rank, R, mv) && mv.j == 0 && mv.Last() < |g| && mv.Pull() < |g| &&
      EdgesListed(g, R, list, mv.Top())
    ensures PredsOf(Spliced(g, mv), Elems(list), mv.Top()) && mv.Pull() != mv.Top()
  {
    var b, E, g2 := mv.Top(), Elems(list), Spliced(g, mv);
    ChainRanks(g, rank, R, mv);
    forall e | e in E ensures PredOf(g2, E, e, b) {
      assert Into(g, R, e, b);
      var x := Pred(g, e);
      assert InRegion(g, rank, R, x) && NodeOk(g, rank, x);
      AboveChain(g, rank, R, mv, x);
      assert Into(g, R, x, b) <==> g[x].jt == b;
      assert Into(g, R, |g| + x, b) <==> g[x].jf == b;
    }
  }

  lemma TopMoved(g: Graph, g': Graph, rank: Rank, R: set<nat>, mv: Move, list: seq<nat>)
    requires Movable(g, rank, R, mv) && mv.j == 0 && mv.Last() < |g| && mv.Pull() < |g| &&
      EdgesListed(g, R, list, mv.Top())
    requires |g'| == |g|
    requires forall x {:trigger g'[x]} :: 0 <= x < |g'| ==>
      g'[x] == Redirected(Spliced(g, mv)[x], |g|, x, Elems(list), mv.Pull())
    ensures Moved(g, g', R, mv)
  {
    var b, E := mv.Top(), Elems(list);
    ChainRanks(g, rank, R, mv);
    forall x | x in R && x < |g| ensures MovedAt(g, g', mv, x) {
      assert InRegion(g, rank, R, x) && NodeOk(g, rank, x);
      assert Into(g, R, x, b) <==> !g[x].Leaf() && g[x].jt == b;
      assert Into(g, R, |g| + x, b) <==> !g[x].Leaf() && g[x].jf == b;
      if x == mv.Pull() || x == mv.Last() {
        assert mv.c[|mv.c| - 2] == mv.Last() && mv.c[|mv.c| - 1] == mv.Pull();
      }
    }
  }

  lemma TopPointers(g: Graph, g': Graph, rank: Rank, R: set<nat>, mv: Move, list: seq<nat>)
    requires Movable(g, rank, R, mv) && mv.j == 0 && mv.Last() < |g| && mv.Pull() < |g| &&
      EdgesListed(g, R, list, mv.Top())
    requires |g'| == |g|
    requires forall x {:trigger g'[x]} :: 0 <= x < |g'| ==>
      g'[x] == Redirected(Spliced(g, mv)[x], |g|, x, Elems(list), mv.Pull())
    ensures OnlyPointers(g, g', R)
  {
    assert mv.c[|mv.c| - 2] in R && mv.c[|mv.c| - 1] in R;
    forall x | 0 <= x < |g|
      ensures g'[x].stmts == g[x].stmts && g'[x].s == g[x].s && (x !in R ==> g'[x] == g[x]) {
      assert Into(g, R, x, mv.Top()) <==> x in Elems(list);
      assert Into(g, R, |g| + x, mv.Top()) <==> |g| + x in Elems(list);
    }
  }

  lemma InsideMoved(g: Graph, g': Graph, rank: Rank, R: set<nat>, mv: Move)
    requires Movable(g, rank, R, mv) && mv.j > 0 && mv.Last() < |g| && mv.Pull() < |g| && mv.c[mv.j - 1] < |g|
    requires g' == Spliced(g, mv)[mv.c[mv.j - 1] := SetOnto(Spliced(g, mv)[mv.c[mv.j - 1]], mv.or, mv.Pull())]
    ensures Moved(g, g', R, mv) && OnlyPointers(g, g', R)
  {
    var prev := mv.c[mv.j - 1];
    assert mv.c[|mv.c| - 2] in R && mv.c[|mv.c| - 1] in R && prev in R;
    ChainRanks(g, rank, R, mv);
    assert prev in rank;
    ChainFalls(g, rank, mv.c, mv.t, mv.or, mv.j - 1, mv.j);
    AboveChain(g, rank, R, mv, prev);
    assert Follows(g, mv.c, mv.j - 1, mv.or);
    forall x | x in R && x < |g| ensures MovedAt(g, g', mv, x) {
      assert InRegion(g, rank, R, x) && Entered(g, mv, mv.j, x);
      assert mv.c[|mv.c| - 2] == mv.Last() && mv.c[|mv.c| - 1] == mv.Pull();
    }
  }
}
