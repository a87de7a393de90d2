/** Merging equal blocks: pointers to a block that has an equal one further on are made
    to point there, until no two reachable blocks are equal. */
module Interning {
  import opened Bpf
  import opened Flow
  import opened Lists
  import opened Layout
  import opened Dag

  // ----- equal statement lists

  /** The statements that have not been deleted. */
  function Strip(ss: seq<Stmt>): seq<Stmt> {
    if ss == [] then []
    else if ss[0].code.Nop? then Strip(ss[1..])
    else [ss[0]] + Strip(ss[1..])
  }

  /** Deleted statements do nothing. */
  lemma {:induction false} StripExec(ss: seq<Stmt>, st: Store, p: Packet)
    ensures ExecList(Strip(ss), st, p) == ExecList(ss, st, p)
    decreases |ss|
  {
    if ss != [] {
      if ss[0].code.Nop? {
        StripExec(ss[1..], st, p);
      } else {
        assert ([ss[0]] + Strip(ss[1..]))[1..] == Strip(ss[1..]);
        match Exec(ss[0], st, p) {
          case None =>
          case Some(st1) => StripExec(ss[1..], st1, p);
        }
      }
    }
  }

  /** Stripping goes statement by statement and drops exactly the deleted ones. */
  lemma {:induction false} StripApart(a: seq<Stmt>, b: seq<Stmt>)
    ensures Strip(a + b) == Strip(a) + Strip(b)
  {
    if a == [] {
      assert a + b == b;
    } else {
      assert (a + b)[0] == a[0] && (a + b)[1..] == a[1..] + b;
      StripApart(a[1..], b);
    }
  }

  lemma StripOne(s: Stmt)
    ensures Strip([s]) == if s.code.Nop? then [] else [s]
  {
    assert [s][1..] == [];
  }

  /** The position of the next statement that is not deleted. */
  method NextOp(x: seq<Stmt>, i0: nat) returns (i: nat)
    requires i0 <= |x|
    ensures i0 <= i <= |x| && (i < |x| ==> !x[i].code.Nop?) && Strip(x[i..]) == Strip(x[i0..])
  {
    i := i0;
    while i < |x| && x[i].code.Nop?
      invariant i0 <= i <= |x| && Strip(x[i..]) == Strip(x[i0..])
    {
      assert x[i..][1..] == x[i + 1..];
      i := i + 1;
    }
  }

  /** Compares two lists statement by statement, skipping deleted ones. */
  method EqSlist(x: seq<Stmt>, y: seq<Stmt>) returns (eq: bool)
    ensures eq <==> Strip(x) == Strip(y)
  {
    var i, j := 0, 0;
    assert x[0..] == x && y[0..] == y;
    while true
      invariant i <= |x| && j <= |y|
      invariant Strip(x) == Strip(y) <==> Strip(x[i..]) == Strip(y[j..])
      decreases |x| - i
    {
      i := NextOp(x, i);
      j := NextOp(y, j);
      if i == |x| || j == |y| {
        return i == |x| && j == |y|;
      }
      assert Strip(x[i..]) == [x[i]] + Strip(x[i + 1..]) by { assert x[i..][1..] == x[i + 1..]; }
      assert Strip(y[j..]) == [y[j]] + Strip(y[j + 1..]) by { assert y[j..][1..] == y[j + 1..]; }
      if x[i].code != y[j].code || x[i].k != y[j].k {
        assert Strip(x[i..])[0] != Strip(y[j..])[0];
        return false;
      }
      TailEqual(x[i], Strip(x[i + 1..]), Strip(y[j + 1..]));
      i, j := i + 1, j + 1;
    }
  }

  lemma TailEqual(s: Stmt, a: seq<Stmt>, b: seq<Stmt>)
    ensures [s] + a == [s] + b <==> a == b
  {
    assert ([s] + a)[1..] == a && ([s] + b)[1..] == b;
  }

  // ----- equal blocks

  ghost predicate EqBlk(g: Graph, i: int, j: int)
    requires 0 <= i < |g| && 0 <= j < |g|
  {
    && g[i].s == g[j].s && g[i].jt == g[j].jt && g[i].jf == g[j].jf
    && Strip(g[i].stmts) == Strip(g[j].stmts)
  }

  lemma EqHeight(g: Graph, rank: Rank, i: int, j: int)
    requires WellFormed(g, rank) && i in rank && j in rank && EqBlk(g, i, j)
    ensures Height(g, rank, i) == Height(g, rank, j)
  {
    assert NodeOk(g, rank, i) && NodeOk(g, rank, j);
  }

  lemma EqRun(g: Graph, rank: Rank, i: int, j: int, st: Store, p: Packet)
    requires WellFormed(g, rank) && i in rank && j in rank && EqBlk(g, i, j)
    ensures Run(g, rank, i, st, p) == Run(g, rank, j, st, p)
  {
    assert NodeOk(g, rank, i) && NodeOk(g, rank, j);
    StripExec(g[i].stmts, st, p);
    StripExec(g[j].stmts, st, p);
  }

  // ----- one round

  /** Where a pointer goes once links are followed. */
  function Resolve(link: seq<int>, x: int): int {
    if 0 <= x < |link| && link[x] != -1 then link[x] else x
  }

  function ResolvedNode(link: seq<int>, n: Node): Node {
    if n.jt == -1 then n else n.(jt := Resolve(link, n.jt), jf := Resolve(link, n.jf))
  }

  /** The link of a block: none, or a reachable equal block further on that has none. */
  ghost predicate LinkOk(g: Graph, R: set<nat>, link: seq<int>, i: nat)
    requires i < |g| == |link|
  {
    if link[i] == -1 then i in R ==> forall j {:trigger EqBlk(g, i, j)} :: i < j < |g| && j in R ==> !EqBlk(g, i, j)
    else i in R && i < link[i] < |g| && link[i] in R && EqBlk(g, i, link[i]) && link[link[i]] == -1
  }

  ghost predicate Linked(g: Graph, R: set<nat>, link: seq<int>) {
    |link| == |g| && forall i {:trigger LinkOk(g, R, link, i)} :: 0 <= i < |g| ==> LinkOk(g, R, link, i)
  }

  ghost predicate Redirected(g: Graph, g': Graph, link: seq<int>) {
    |g'| == |g| && forall b {:trigger g'[b]} :: 0 <= b < |g| ==> g'[b] == ResolvedNode(link, g[b])
  }

  ghost function Heights(g: Graph, rank: Rank): Rank
    requires WellFormed(g, rank)
  {
    map b: int | b in rank :: Height(g, rank, b)
  }

  lemma ResolveOk(g: Graph, rank: Rank, root: nat, link: seq<int>, x: int)
    requires WellFormed(g, rank) && root in rank && Linked(g, Reach(g, rank, root), link) && x in rank
    ensures
      var y := Resolve(link, x);
      && 0 <= x < |g| && y in rank && 0 <= y < |g| && Height(g, rank, y) == Height(g, rank, x)
      && EqBlk(g, x, y) && link[y] == -1
    ensures x in Reach(g, rank, root) ==> Resolve(link, x) in Reach(g, rank, root)
  {
    assert LinkOk(g, Reach(g, rank, root), link, x);
    if link[x] != -1 {
      ReachRanked(g, rank, root, link[x]);
      EqHeight(g, rank, x, link[x]);
    }
  }

  lemma RedirectedWf(g: Graph, g': Graph, rank: Rank, root: nat, link: seq<int>)
    requires WellFormed(g, rank) && root in rank && Linked(g, Reach(g, rank, root), link) && Redirected(g, g', link)
    ensures WellFormed(g', Heights(g, rank))
  {
    var h := Heights(g, rank);
    forall b | 0 <= b < |g'| && b in h ensures NodeOk(g', h, b) {
      assert NodeOk(g, rank, b) && g'[b] == ResolvedNode(link, g[b]);
      if !g[b].Leaf() {
        HeightFalls(g, rank, b);
        ResolveOk(g, rank, root, link, g[b].jt);
        ResolveOk(g, rank, root, link, g[b].jf);
      }
    }
  }

  /** Every run of the new graph is a run of the old one, aborts included. */
  lemma {:induction false} RedirectedRun(g: Graph, g': Graph, rank: Rank, root: nat, link: seq<int>, b: int, st: Store,
                                         p: Packet)
    requires WellFormed(g, rank) && root in rank && Linked(g, Reach(g, rank, root), link) && Redirected(g, g', link)
    requires WellFormed(g', Heights(g, rank)) && b in rank
    ensures Run(g', Heights(g, rank), b, st, p) == Run(g, rank, b, st, p)
    decreases Height(g, rank, b)
  {
    assert NodeOk(g, rank, b) && NodeOk(g', Heights(g, rank), b) && g'[b] == ResolvedNode(link, g[b]);
    if ExecList(g[b].stmts, st, p).Some? && !g[b].Leaf() {
      var st1 := ExecList(g[b].stmts, st, p).value;
      var c := if Holds(g[b].s, st1) then g[b].jt else g[b].jf;
      HeightFalls(g, rank, b);
      ResolveOk(g, rank, root, link, c);
      RedirectedRun(g, g', rank, root, link, Resolve(link, c), st1, p);
      EqRun(g, rank, c, Resolve(link, c), st1, p);
    }
  }

  /** The blocks reachable afterwards were reachable before and are not linked away. */
  lemma {:induction false} RedirectedReach(g: Graph, g': Graph, rank: Rank, root: nat, link: seq<int>, b: nat, x: nat)
    requires WellFormed(g, rank) && root in rank && Linked(g, Reach(g, rank, root), link) && Redirected(g, g', link)
    requires WellFormed(g', Heights(g, rank)) && b in rank && b in Reach(g, rank, root) && b < |g| && link[b] == -1
    requires x in Reach(g', Heights(g, rank), b)
    ensures x in Reach(g, rank, root) && x < |g| && link[x] == -1
    decreases Height(g, rank, b)
  {
    assert NodeOk(g, rank, b) && NodeOk(g', Heights(g, rank), b) && g'[b] == ResolvedNode(link, g[b]);
    if x != b {
      HeightFalls(g, rank, b);
      ReachSuccs(g, rank, root, b);
      ResolveOk(g, rank, root, link, g[b].jt);
      ResolveOk(g, rank, root, link, g[b].jf);
      var y := if x in Reach(g', Heights(g, rank), g'[b].jt) then g'[b].jt else g'[b].jf;
      RedirectedReach(g, g', rank, root, link, y, x);
    }
  }

  /** A block reachable from another, and not the same, lies lower. */
  lemma {:induction false} ReachLower(g: Graph, rank: Rank, b: int, x: nat)
    requires WellFormed(g, rank) && b in rank && x in Reach(g, rank, b) && x != b
    ensures x in rank && Height(g, rank, x) < Height(g, rank, b)
    decreases rank[b]
  {
    assert NodeOk(g, rank, b);
    HeightFalls(g, rank, b);
    var y := if x in Reach(g, rank, g[b].jt) then g[b].jt else g[b].jf;
    if x != y {
      ReachLower(g, rank, y, x);
    }
  }

  /** The root is never linked: nothing reachable from it is its equal. */
  lemma RootUnlinked(g: Graph, rank: Rank, root: nat, link: seq<int>)
    requires WellFormed(g, rank) && root in rank && root < |g| && Linked(g, Reach(g, rank, root), link)
    ensures link[root] == -1
  {
    assert LinkOk(g, Reach(g, rank, root), link, root);
    if link[root] != -1 {
      ReachLower(g, rank, root, link[root]);
      EqHeight(g, rank, root, link[root]);
      assert false;
    }
  }

  /** A block that is linked away is no longer reachable. */
  lemma RoundShrinks(g: Graph, g': Graph, rank: Rank, root: nat, link: seq<int>, i: nat)
    requires WellFormed(g, rank) && root in rank && root < |g| && Linked(g, Reach(g, rank, root), link) &&
      Redirected(g, g', link)
    requires WellFormed(g', Heights(g, rank)) && i < |g| && link[i] != -1
    ensures Reach(g', Heights(g, rank), root) < Reach(g, rank, root)
    ensures |Reach(g', Heights(g, rank), root)| < |Reach(g, rank, root)|
  {
    var R, R' := Reach(g, rank, root), Reach(g', Heights(g, rank), root);
    RootUnlinked(g, rank, root, link);
    assert root in R by { assert NodeOk(g, rank, root); }
    assert LinkOk(g, R, link, i);
    forall x | x in R' ensures x in R - {i} {
      RedirectedReach(g, g', rank, root, link, root, x);
    }
    SubsetSize(R', R - {i});
  }

  /** A linked block has a reachable predecessor, whose pointer will be changed. */
  lemma {:induction false} HasPred(g: Graph, rank: Rank, b: int, x: nat) returns (u: nat)
    requires WellFormed(g, rank) && b in rank && x in Reach(g, rank, b) && x != b
    ensures u in Reach(g, rank, b) && u < |g| && g[u].jt != -1 && (g[u].jt == x || g[u].jf == x)
    decreases rank[b]
  {
    assert NodeOk(g, rank, b);
    if g[b].jt == x || g[b].jf == x {
      u := b;
    } else {
      var y := if x in Reach(g, rank, g[b].jt) then g[b].jt else g[b].jf;
      u := HasPred(g, rank, y, x);
    }
  }

  /** No two different reachable blocks are equal. */
  ghost predicate AllDifferent(g: Graph, R: set<nat>) {
    forall i: nat, j: nat {:trigger EqBlk(g, i, j)} ::
      i in R && j in R && i < |g| && j < |g| && i != j ==> !EqBlk(g, i, j)
  }

  lemma NoLinksLeft(g: Graph, R: set<nat>, link: seq<int>)
    requires Linked(g, R, link) && forall i {:trigger link[i]} :: 0 <= i < |g| ==> link[i] == -1
    ensures AllDifferent(g, R)
  {
    forall i: nat, j: nat | i in R && j in R && i < |g| && j < |g| && i != j ensures !EqBlk(g, i, j) {
      var lo, hi := if i < j then i else j, if i < j then j else i;
      assert link[lo] == -1 && LinkOk(g, R, link, lo);
      assert EqBlk(g, i, j) ==> EqBlk(g, lo, hi);
    }
  }

  // ----- what merging does to the graph

  function Sent(rep: seq<int>, x: int): int {
    if 0 <= x < |rep| then rep[x] else x
  }

  /** The blocks do the same and go on to blocks with the same representatives. */
  ghost predicate SameUnder(g: Graph, rep: seq<int>, x: int, y: int)
    requires 0 <= x < |g| && 0 <= y < |g|
  {
    && g[x].s == g[y].s && Strip(g[x].stmts) == Strip(g[y].stmts)
    && Sent(rep, g[x].jt) == Sent(rep, g[y].jt) && Sent(rep, g[x].jf) == Sent(rep, g[y].jf)
  }

  /** The representative of a reachable block is a reachable block that does the same, and
      represents itself. */
  ghost predicate RepOk(g: Graph, R: set<nat>, rep: seq<int>, x: nat)
    requires x < |g| == |rep|
  {
    if x in R then 0 <= rep[x] < |g| && rep[x] in R && rep[rep[x]] == rep[x] && SameUnder(g, rep, x, rep[x])
    else rep[x] == x
  }

  /** In the second graph every pointer leads to a representative; of the reachable blocks
      the representatives are left. */
  ghost predicate Represented(g: Graph, R: set<nat>, g': Graph, R': set<nat>, rep: seq<int>) {
    && |rep| == |g| == |g'|
    && (forall x {:trigger RepOk(g, R, rep, x)} :: 0 <= x < |g| ==> RepOk(g, R, rep, x))
    && (forall b {:trigger g'[b]} :: 0 <= b < |g| ==>
          g'[b] == g[b].(jt := Sent(rep, g[b].jt), jf := Sent(rep, g[b].jf)))
    && forall y: nat {:trigger y in R'} :: y in R' <==> y in R && y < |g| && rep[y] == y
  }

  /** And blocks that do the same have the same representative. */
  ghost predicate FullyMerged(g: Graph, R: set<nat>, g': Graph, R': set<nat>, rep: seq<int>) {
    && Represented(g, R, g', R', rep)
    && forall x: nat, y: nat {:trigger SameUnder(g, rep, x, y)} ::
         x in R && y in R && x < |g| && y < |g| && SameUnder(g, rep, x, y) ==> rep[x] == rep[y]
  }

  lemma ReachInside(g: Graph, rank: Rank, root: nat)
    requires WellFormed(g, rank) && root in rank
    ensures forall x :: x in Reach(g, rank, root) ==> x < |g|
  {
    forall x | x in Reach(g, rank, root) ensures x < |g| {
      ReachRanked(g, rank, root, x);
    }
  }

  lemma NothingMerged(g: Graph, R: set<nat>)
    requires forall x :: x in R ==> x < |g|
    ensures Represented(g, R, g, R, seq(|g|, i => i))
  {
    var rep: seq<int> := seq(|g|, i => i);
    forall x | 0 <= x < |g| ensures RepOk(g, R, rep, x) {
    }
    forall b | 0 <= b < |g| ensures g[b] == g[b].(jt := Sent(rep, g[b].jt), jf := Sent(rep, g[b].jf)) {
    }
  }

  /** What can be reached through a block can be reached through its link. */
  lemma {:induction false} ReachResolved(g: Graph, g': Graph, rank: Rank, root: nat, link: seq<int>, b: int, x: nat)
    requires WellFormed(g, rank) && root in rank && Linked(g, Reach(g, rank, root), link) && Redirected(g, g', link)
    requires WellFormed(g', Heights(g, rank)) && b in rank && x in Reach(g, rank, b)
    ensures x in rank && Resolve(link, b) in rank
    ensures Resolve(link, x) in Reach(g', Heights(g, rank), Resolve(link, b))
    decreases rank[b]
  {
    var h := Heights(g, rank);
    ReachRanked(g, rank, b, x);
    assert NodeOk(g, rank, b);
    ResolveOk(g, rank, root, link, b);
    var c := Resolve(link, b);
    assert NodeOk(g', h, c) && g'[c] == ResolvedNode(link, g[c]);
    if x != b {
      var y := if x in Reach(g, rank, g[b].jt) then g[b].jt else g[b].jf;
      ReachResolved(g, g', rank, root, link, y, x);
    }
  }

  lemma LeftReachable(g: Graph, g': Graph, rank: Rank, root: nat, link: seq<int>, y: nat)
    requires WellFormed(g, rank) && root in rank && root < |g| && Linked(g, Reach(g, rank, root), link)
    requires Redirected(g, g', link) && WellFormed(g', Heights(g, rank)) && root in Reach(g, rank, root)
    ensures y in Reach(g', Heights(g, rank), root) <==> y in Reach(g, rank, root) && y < |g| && link[y] == -1
  {
    RootUnlinked(g, rank, root, link);
    if y in Reach(g', Heights(g, rank), root) {
      RedirectedReach(g, g', rank, root, link, root, y);
    }
    if y in Reach(g, rank, root) && y < |g| && link[y] == -1 {
      ReachResolved(g, g', rank, root, link, root, y);
    }
  }

  function After(rep: seq<int>, link: seq<int>): seq<int> {
    seq(|rep|, i requires 0 <= i < |rep| => Resolve(link, rep[i]))
  }

  lemma RepsNatural(g: Graph, R: set<nat>, g': Graph, R': set<nat>, rep: seq<int>)
    requires Represented(g, R, g', R', rep)
    ensures forall i {:trigger rep[i]} :: 0 <= i < |rep| ==> 0 <= rep[i] < |g|
  {
    forall i | 0 <= i < |rep| ensures 0 <= rep[i] < |g| {
      assert RepOk(g, R, rep, i);
    }
  }

  /** One round more. */
  lemma RepMore(g0: Graph, R0: set<nat>, g1: Graph, R1: set<nat>, rep: seq<int>, link: seq<int>, x: nat)
    requires Represented(g0, R0, g1, R1, rep) && Linked(g1, R1, link) && Shaped(g0) && x < |g0|
    ensures RepOk(g0, R0, After(rep, link), x)
  {
    var rep2 := After(rep, link);
    assert RepOk(g0, R0, rep, x);
    RepsNatural(g0, R0, g1, R1, rep);
    if x !in R0 {
      assert LinkOk(g1, R1, link, x);
    } else {
      var y := rep[x];
      assert RepOk(g0, R0, rep, y) && y in R1;
      assert LinkOk(g1, R1, link, y);
      var z := Resolve(link, y);
      assert z in R1 && link[z] == -1 && EqBlk(g1, y, z);
      assert rep[z] == z && rep2[z] == z;
      SameMore(g0, g1, rep, link, x, y, z);
    }
  }

  lemma SameMore(g0: Graph, g1: Graph, rep: seq<int>, link: seq<int>, x: int, y: int, z: int)
    requires |rep| == |link| == |g0| == |g1| && 0 <= x < |g0| && 0 <= y < |g0| && 0 <= z < |g0| && Shaped(g0)
    requires forall b {:trigger g1[b]} :: 0 <= b < |g0| ==>
      g1[b] == g0[b].(jt := Sent(rep, g0[b].jt), jf := Sent(rep, g0[b].jf))
    requires forall i {:trigger rep[i]} :: 0 <= i < |rep| ==> rep[i] >= 0
    requires SameUnder(g0, rep, x, y) && EqBlk(g1, y, z)
    ensures SameUnder(g0, After(rep, link), x, z)
  {
    assert g1[y] == g0[y].(jt := Sent(rep, g0[y].jt), jf := Sent(rep, g0[y].jf));
    assert g1[z] == g0[z].(jt := Sent(rep, g0[z].jt), jf := Sent(rep, g0[z].jf));
    assert g0[x] == g0[x];
    SameSent(rep, link, g0[x].jt, g0[z].jt);
    SameSent(rep, link, g0[x].jf, g0[z].jf);
  }

  lemma SameSent(rep: seq<int>, link: seq<int>, i: int, j: int)
    requires |rep| == |link| && -1 <= i < |rep| && -1 <= j < |rep| && Sent(rep, i) == Sent(rep, j)
    requires forall k {:trigger rep[k]} :: 0 <= k < |rep| ==> rep[k] >= 0
    ensures Sent(After(rep, link), i) == Sent(After(rep, link), j)
  {
  }

  lemma RoundMerged(g0: Graph, R0: set<nat>, g1: Graph, g2: Graph, rank: Rank, root: nat, rep: seq<int>, link: seq<int>)
    requires WellFormed(g1, rank) && root in rank && root < |g1| && Shaped(g0)
    requires Represented(g0, R0, g1, Reach(g1, rank, root), rep) && Linked(g1, Reach(g1, rank, root), link)
    requires Redirected(g1, g2, link) && WellFormed(g2, Heights(g1, rank)) && root in Reach(g1, rank, root)
    ensures Represented(g0, R0, g2, Reach(g2, Heights(g1, rank), root), After(rep, link))
  {
    RepsNatural(g0, R0, g1, Reach(g1, rank, root), rep);
    var R1, R2, rep2 := Reach(g1, rank, root), Reach(g2, Heights(g1, rank), root), After(rep, link);
    forall x | 0 <= x < |g0| ensures RepOk(g0, R0, rep2, x) {
      RepMore(g0, R0, g1, R1, rep, link, x);
    }
    forall b | 0 <= b < |g0| ensures g2[b] == g0[b].(jt := Sent(rep2, g0[b].jt), jf := Sent(rep2, g0[b].jf)) {
      TwiceSent(g0, R0, g1, g2, rep, link, b);
    }
    forall y: nat ensures y in R2 <==> y in R0 && y < |g0| && rep2[y] == y {
      LeftReachable(g1, g2, rank, root, link, y);
      if y < |g0| {
        FixedTwice(g0, R0, g1, R1, rep, link, y);
      }
    }
  }

  lemma TwiceSent(g0: Graph, R0: set<nat>, g1: Graph, g2: Graph, rep: seq<int>, link: seq<int>, b: nat)
    requires |rep| == |link| == |g0| == |g1| && b < |g0| && Shaped(g0) && Redirected(g1, g2, link)
    requires g1[b] == g0[b].(jt := Sent(rep, g0[b].jt), jf := Sent(rep, g0[b].jf))
    requires forall i {:trigger rep[i]} :: 0 <= i < |rep| ==> rep[i] >= 0
    ensures
      var rep2 := After(rep, link);
      g2[b] == g0[b].(jt := Sent(rep2, g0[b].jt), jf := Sent(rep2, g0[b].jf))
  {
    assert g2[b] == ResolvedNode(link, g1[b]) && g0[b] == g0[b];
  }

  lemma FixedTwice(g0: Graph, R0: set<nat>, g1: Graph, R1: set<nat>, rep: seq<int>, link: seq<int>, y: nat)
    requires Represented(g0, R0, g1, R1, rep) && Linked(g1, R1, link) && y < |g0|
    ensures y in R0 && After(rep, link)[y] == y <==> y in R1 && link[y] == -1
  {
    assert RepOk(g0, R0, rep, y);
    if y in R0 {
      var u := rep[y];
      assert RepOk(g0, R0, rep, u);
      assert LinkOk(g1, R1, link, u) && LinkOk(g1, R1, link, y);
    }
  }

  /** Nothing equal is left: blocks that do the same have been merged. */
  lemma AllMerged(g: Graph, R: set<nat>, g': Graph, R': set<nat>, rep: seq<int>)
    requires Represented(g, R, g', R', rep) && AllDifferent(g', R')
    ensures FullyMerged(g, R, g', R', rep)
  {
    forall x: nat, y: nat | x in R && y in R && x < |g| && y < |g| && SameUnder(g, rep, x, y) ensures rep[x] == rep[y] {
      assert RepOk(g, R, rep, x) && RepOk(g, R, rep, y);
      var u, v := rep[x], rep[y];
      assert RepOk(g, R, rep, u) && RepOk(g, R, rep, v) && u in R' && v in R';
      assert g'[u] == g[u].(jt := Sent(rep, g[u].jt), jf := Sent(rep, g[u].jf));
      assert g'[v] == g[v].(jt := Sent(rep, g[v].jt), jf := Sent(rep, g[v].jf));
      assert EqBlk(g', u, v);
    }
  }

  // ----- the pass

  /** Every pointer of every block, reachable or not, is to a block or null. */
  predicate Shaped(g: Graph) {
    forall b {:trigger g[b]} :: 0 <= b < |g| ==>
      -1 <= g[b].jt < |g| && -1 <= g[b].jf < |g| && (g[b].jt == -1 <==> g[b].jf == -1)
  }

  ghost predicate MarksAre(mark: seq<nat>, cur: nat, S: set<nat>) {
    forall x {:trigger Marked(mark, cur, x)} :: Marked(mark, cur, x) <==> x in S
  }

  class Interner {
    var g: Graph
    ghost var rank: Rank
    var mark: seq<nat>
    var curMark: nat
    var link: seq<int>

    constructor (g: Graph, ghost rank: Rank)
      requires WellFormed(g, rank) && Shaped(g)
      ensures this.g == g && this.rank == rank && Valid()
    {
      this.g, this.rank := g, rank;
      mark, curMark, link := seq(|g|, i => 0), 0, seq(|g|, i => -1);
    }

    ghost predicate Valid()
      reads this
    {
      && WellFormed(g, rank) && Shaped(g) && |mark| == |link| == |g|
      && forall i :: 0 <= i < |g| ==> mark[i] <= curMark
    }

    /** Marks what can be reached from `b`; `R` bounds it, `stack` is being visited. */
    method MakeMarks(b: nat, ghost R: set<nat>, ghost done: set<nat>, ghost stack: set<nat>)
      returns (ghost done': set<nat>)
      requires Valid() && b in rank && Reach(g, rank, b) <= R && done <= R && done !! stack
      requires MarksAre(mark, curMark, done + stack)
      requires forall x :: x in stack ==> x in rank && rank[x] > rank[b]
      requires forall x {:trigger x in done} :: x in done && x in rank ==> Reach(g, rank, x) <= done
      modifies this`mark
      ensures Valid() && done <= done' <= R && done' !! stack && b in done'
      ensures MarksAre(mark, curMark, done' + stack)
      ensures forall x {:trigger x in done'} :: x in done' && x in rank ==> Reach(g, rank, x) <= done'
      decreases rank[b]
    {
      assert NodeOk(g, rank, b);
      done' := done;
      assert Marked(mark, curMark, b) <==> b in done;
      if mark[b] == curMark {
        return;
      }
      ghost var m := mark;
      mark := mark[b := curMark];
      assert MarksAre(mark, curMark, done + (stack + {b})) by {
        assert forall x :: Marked(mark, curMark, x) <==> x == b || Marked(m, curMark, x);
      }
      if !g[b].Leaf() {
        done' := MakeMarks(g[b].jt, R, done', stack + {b});
        done' := MakeMarks(g[b].jf, R, done', stack + {b});
      }
      assert done' + (stack + {b}) == done' + {b} + stack;
      done' := done' + {b};
    }

    /** Afterwards exactly the reachable blocks are marked. */
    method MarkCode(root: nat)
      requires Valid() && root in rank
      modifies this`mark, this`curMark
      ensures Valid() && MarksAre(mark, curMark, Reach(g, rank, root))
    {
      curMark := curMark + 1;
      ghost var done := MakeMarks(root, Reach(g, rank, root), {}, {});
      assert done + {} == Reach(g, rank, root);
    }

    method EqBlocks(i: nat, j: nat) returns (eq: bool)
      requires i < |g| && j < |g|
      ensures eq <==> EqBlk(g, i, j)
    {
      if g[i].s.code == g[j].s.code && g[i].s.k == g[j].s.k && g[i].jt == g[j].jt && g[i].jf == g[j].jf {
        eq := EqSlist(g[i].stmts, g[j].stmts);
      } else {
        eq := false;
      }
    }

    /** The first equal marked block after `i`, or the one that is linked to. */
    method FindEqual(i: nat, ghost R: set<nat>)
      requires Valid() && i < |g| && link[i] == -1 && i in R && MarksAre(mark, curMark, R)
      requires forall k {:trigger LinkOk(g, R, link, k)} :: i < k < |g| ==> LinkOk(g, R, link, k)
      modifies this`link
      ensures |link| == |g| && LinkOk(g, R, link, i)
      ensures forall k :: 0 <= k < |g| && k != i ==> link[k] == old(link[k])
    {
      var j := i + 1;
      while j < |g|
        invariant i < j <= |g| && link == old(link)
        invariant forall k {:trigger EqBlk(g, i, k)} :: i < k < j && k in R ==> !EqBlk(g, i, k)
      {
        assert Marked(mark, curMark, j) <==> j in R;
        if mark[j] == curMark {
          var eq := EqBlocks(i, j);
          if eq {
            assert LinkOk(g, R, link, j);
            link := link[i := if link[j] != -1 then link[j] else j];
            return;
          }
        }
        j := j + 1;
      }
    }

    /** Links every reachable block to an equal one further on, from the last but one
        block back to the first. */
    method LinkBlocks(root: nat)
      requires Valid() && root in rank && root < |g| && MarksAre(mark, curMark, Reach(g, rank, root))
      modifies this`link
      ensures Valid() && Linked(g, Reach(g, rank, root), link)
    {
      ghost var R := Reach(g, rank, root);
      link := seq(|g|, i => -1);
      var i: int := |g| - 1;
      assert LinkOk(g, R, link, |g| - 1);
      while i > 0
        invariant 0 <= i < |g| && |link| == |g|
        invariant forall k {:trigger LinkOk(g, R, link, k)} :: i <= k < |g| ==> LinkOk(g, R, link, k)
        invariant forall k :: 0 <= k < i ==> link[k] == -1
      {
        i := i - 1;
        ghost var link0 := link;
        assert Marked(mark, curMark, i) <==> i in R;
        if mark[i] == curMark {
          FindEqual(i, R);
        }
        forall k | i <= k < |g| ensures LinkOk(g, R, link, k) {
          if k > i {
            assert LinkOk(g, R, link0, k);
          }
        }
      }
    }

    /** Follows the links in every block; `changed` says whether a pointer moved. */
    method RedirectAll() returns (changed: bool, ghost moved: nat)
      requires Valid()
      modifies this`g
      ensures Redirected(old(g), g, link)
      ensures !changed ==> forall b {:trigger old(g)[b]} :: 0 <= b < |g| && old(g)[b].jt != -1 ==>
        link[old(g)[b].jt] == -1 && link[old(g)[b].jf] == -1
      ensures changed ==> moved < |g| && link[moved] != -1
    {
      changed, moved := false, 0;
      ghost var g0 := g;
      var i := 0;
      while i < |g|
        invariant 0 <= i <= |g| == |g0|
        invariant forall b {:trigger g[b]} ::
          0 <= b < |g| ==> g[b] == if b < i then ResolvedNode(link, g0[b]) else g0[b]
        invariant !changed ==> forall b {:trigger g0[b]} :: 0 <= b < i && g0[b].jt != -1 ==>
          link[g0[b].jt] == -1 && link[g0[b].jf] == -1
        invariant changed ==> moved < |g| && link[moved] != -1
      {
        assert g[i] == g0[i];
        if g[i].jt != -1 {
          var jt, jf := g[i].jt, g[i].jf;
          if link[jt] != -1 || link[jf] != -1 {
            changed, moved := true, if link[jt] != -1 then jt else jf;
          }
          g := g[i := g[i].(jt := Resolve(link, jt), jf := Resolve(link, jf))];
        }
        i := i + 1;
      }
    }

    /** Repeats until nothing moves. Then blocks that do the same are one: `rep` says which
        block each has become. */
    method InternBlocks(root: nat) returns (ghost rep: seq<int>)
      requires Valid() && root in rank && root < |g|
      modifies this
      ensures Valid() && root in rank && |g| == |old(g)|
      ensures forall st, p {:trigger Run(g, rank, root, st, p)} ::
        Run(g, rank, root, st, p) == Run(old(g), old(rank), root, st, p)
      ensures FullyMerged(old(g), Reach(old(g), old(rank), root), g, Reach(g, rank, root), rep)
      ensures AllDifferent(g, Reach(g, rank, root))
      ensures SameCode(old(g), g) && Reach(g, rank, root) <= Reach(old(g), old(rank), root)
    {
      var changed := true;
      ghost var g0, rank0 := g, rank;
      ghost var R0 := Reach(g, rank, root);
      rep := seq(|g|, i => i);
      assert NodeOk(g, rank, root);
      ReachInside(g, rank, root);
      NothingMerged(g, R0);
      while changed
        invariant Valid() && root in rank && |g| == |g0| && root in Reach(g, rank, root)
        invariant forall st, p {:trigger Run(g, rank, root, st, p)} ::
          Run(g, rank, root, st, p) == Run(g0, rank0, root, st, p)
        invariant Represented(g0, R0, g, Reach(g, rank, root), rep)
        invariant !changed ==> AllDifferent(g, Reach(g, rank, root))
        invariant SameCode(g0, g) && Reach(g, rank, root) <= Reach(g0, rank0, root)
        decreases |Reach(g, rank, root)|, changed
      {
        ghost var g1, rank1 := g, rank;
        changed := Round(root);
        RoundMerged(g0, R0, g1, g, rank1, root, rep, link);
        rep := After(rep, link);
        assert NodeOk(g, rank, root);
      }
      AllMerged(g0, R0, g, Reach(g, rank, root), rep);
    }

    method Round(root: nat) returns (changed: bool)
      requires Valid() && root in rank && root < |g|
      modifies this
      ensures Valid() && root in rank && |g| == |old(g)|
      ensures forall st, p {:trigger Run(g, rank, root, st, p)} ::
        Run(g, rank, root, st, p) == Run(old(g), old(rank), root, st, p)
      ensures changed ==> |Reach(g, rank, root)| < |Reach(old(g), old(rank), root)|
      ensures !changed ==>
        |Reach(g, rank, root)| <= |Reach(old(g), old(rank), root)| && AllDifferent(g, Reach(g, rank, root))
      ensures SameCode(old(g), g) && Reach(g, rank, root) <= Reach(old(g), old(rank), root)
      ensures Linked(old(g), Reach(old(g), old(rank), root), link) && Redirected(old(g), g, link)
      ensures rank == Heights(old(g), old(rank))
    {
      MarkCode(root);
      LinkBlocks(root);
      ghost var g0, rank0 := g, rank;
      ghost var moved;
      changed, moved := RedirectAll();
      RedirectedWf(g0, g, rank0, root, link);
      RedirectedShaped(g0, g, Reach(g0, rank0, root), link);
      rank := Heights(g0, rank0);
      forall st, p ensures Run(g, rank, root, st, p) == Run(g0, rank0, root, st, p) {
        RedirectedRun(g0, g, rank0, root, link, root, st, p);
      }
      RedirectedCode(g0, g, link);
      if changed {
        RoundShrinks(g0, g, rank0, root, link, moved);
      } else {
        NothingMoved(g0, g, rank0, root, link);
      }
    }
  }

  lemma RedirectedCode(g: Graph, g': Graph, link: seq<int>)
    requires Redirected(g, g', link)
    ensures SameCode(g, g')
  {
  }

  lemma RedirectedShaped(g: Graph, g': Graph, R: set<nat>, link: seq<int>)
    requires Shaped(g) && Linked(g, R, link) && Redirected(g, g', link)
    ensures Shaped(g')
  {
    forall b | 0 <= b < |g'|
      ensures -1 <= g'[b].jt < |g'| && -1 <= g'[b].jf < |g'| && (g'[b].jt == -1 <==> g'[b].jf == -1) {
      assert g'[b] == ResolvedNode(link, g[b]);
      if g[b].jt != -1 {
        assert LinkOk(g, R, link, g[b].jt) && LinkOk(g, R, link, g[b].jf);
      }
    }
  }

  /** When no pointer moved, no block was linked. */
  lemma NothingMoved(g: Graph, g': Graph, rank: Rank, root: nat, link: seq<int>)
    requires WellFormed(g, rank) && Shaped(g) && root in rank && root < |g| && Linked(g, Reach(g, rank, root), link)
    requires Redirected(g, g', link) && WellFormed(g', Heights(g, rank))
    requires forall b {:trigger g[b]} :: 0 <= b < |g| && g[b].jt != -1 ==> link[g[b].jt] == -1 && link[g[b].jf] == -1
    ensures g' == g && AllDifferent(g, Reach(g, rank, root))
    ensures Reach(g', Heights(g, rank), root) == Reach(g, rank, root)
  {
    var R := Reach(g, rank, root);
    RootUnlinked(g, rank, root, link);
    forall i | 0 <= i < |g| ensures link[i] == -1 {
      assert LinkOk(g, R, link, i);
      if link[i] != -1 {
        var u := HasPred(g, rank, root, i);
      }
    }
    NoLinksLeft(g, R, link);
    assert g' == g by {
      forall b | 0 <= b < |g| ensures g'[b] == g[b] {
      }
    }
    ReachAnyRank(g, rank, Heights(g, rank), root);
  }

  lemma {:induction false} ReachAnyRank(g: Graph, rank: Rank, rank': Rank, b: int)
    requires WellFormed(g, rank) && WellFormed(g, rank') && b in rank && b in rank'
    ensures Reach(g, rank, b) == Reach(g, rank', b)
    decreases rank[b]
  {
    assert NodeOk(g, rank, b) && NodeOk(g, rank', b);
    if !g[b].Leaf() {
      ReachAnyRank(g, rank, rank', g[b].jt);
      ReachAnyRank(g, rank, rank', g[b].jf);
    }
  }
}
