/** Dominators, edge dominators and the backwards closure, each found by one sweep down
    the levels. Sets of blocks and edges stand for the source's bit vectors. */
module PathFacts {
  import opened Flow
  import opened Lists
  import opened Layout
  import opened Dag
  import opened Levels
  import opened Sweep
  import opened Seal

  // ----- blocks and edges as nets

  ghost function BlockNet(g: Graph, rank: Rank, root: nat): Net
    requires WellFormed(g, rank) && root in rank
  {
    Net(Links(seq(|g|, b requires 0 <= b < |g| => g[b].jt), seq(|g|, b requires 0 <= b < |g| => g[b].jf)),
        Reach(g, rank, root), {root},
        seq(|g|, b requires 0 <= b < |g| => if b in rank then Height(g, rank, b) else 0))
  }

  ghost function EdgesOf(g: Graph, S: set<nat>): (E: set<nat>)
    ensures forall e: nat {:trigger e in E} :: e in E <==> e < 2 * |g| && Pred(g, e) in S
  {
    set e | e in Upto(2 * |g|) && Pred(g, e) in S
  }

  /** After an edge come the two edges of the block it leads to. */
  ghost function EdgeNet(g: Graph, rank: Rank, root: nat): Net
    requires WellFormed(g, rank) && root in rank
  {
    Net(Links(seq(2 * |g|, e requires 0 <= e < 2 * |g| => Succ(g, e)),
              seq(2 * |g|, e requires 0 <= e < 2 * |g| => if Succ(g, e) < 0 then -1 else |g| + Succ(g, e))),
        EdgesOf(g, Reach(g, rank, root)), {root, |g| + root},
        seq(2 * |g|, e requires 0 <= e < 2 * |g| => if Pred(g, e) in rank then Height(g, rank, Pred(g, e)) else 0))
  }

  lemma BlockNetOk(g: Graph, rank: Rank, root: nat)
    requires WellFormed(g, rank) && root in rank
    ensures NetOk(BlockNet(g, rank, root))
  {
    var N, R := BlockNet(g, rank, root), Reach(g, rank, root);
    forall v | v in R ensures v < |g| && v in rank {
      ReachRanked(g, rank, root, v);
    }
    forall u, v | 0 <= u < |g| ensures Falls(N, u, v) {
      if u in R && Linked(N.links, u, v) {
        assert NodeOk(g, rank, u);
        ReachSuccs(g, rank, root, u);
        HeightFalls(g, rank, u);
      }
    }
  }

  lemma EdgeNetOk(g: Graph, rank: Rank, root: nat)
    requires WellFormed(g, rank) && root in rank
    ensures NetOk(EdgeNet(g, rank, root))
  {
    var N := EdgeNet(g, rank, root);
    forall u, v | 0 <= u < 2 * |g| ensures Falls(N, u, v) {
      if u in N.active && Linked(N.links, u, v) {
        EdgeFalls(g, rank, root, u, v);
      }
    }
  }

  lemma EdgeFalls(g: Graph, rank: Rank, root: nat, u: nat, v: nat)
    requires WellFormed(g, rank) && root in rank && u < 2 * |g| && Pred(g, u) in Reach(g, rank, root)
    requires 0 <= Succ(g, u) && (v == Succ(g, u) || v == |g| + Succ(g, u))
    ensures v < 2 * |g| && Pred(g, v) in Reach(g, rank, root) && Pred(g, v) in rank && Pred(g, u) in rank
    ensures Height(g, rank, Pred(g, v)) < Height(g, rank, Pred(g, u))
  {
    var b := Pred(g, u);
    ReachRanked(g, rank, root, b);
    assert NodeOk(g, rank, b);
    ReachSuccs(g, rank, root, b);
    HeightFalls(g, rank, b);
  }

  // ----- the order of the sweep

  /** The sweep has come to position `k` of level `i`. */
  ghost predicate Swept(g: Graph, rank: Rank, root: nat, rows: Rows, seen: set<nat>, i: nat, k: nat)
    requires WellFormed(g, rank) && root in rank && i < |rows| && k <= |rows[i]|
  {
    && seen <= Reach(g, rank, root)
    && forall x :: x in Reach(g, rank, root) && x in rank ==>
      (x in seen <==> Height(g, rank, x) > i || (Height(g, rank, x) == i && x in Elems(rows[i][..k])))
  }

  ghost predicate LevelsOf(g: Graph, rank: Rank, root: nat, level: seq<nat>, rows: Rows) {
    WellFormed(g, rank) && root in rank && root < |g| && Leveled(g, rank, level, rows, Reach(g, rank, root))
  }

  lemma HeightUnderRoot(g: Graph, rank: Rank, root: nat, x: nat)
    requires WellFormed(g, rank) && root in rank && x in Reach(g, rank, root)
    ensures x in rank && Height(g, rank, x) <= Height(g, rank, root)
    decreases rank[root]
  {
    assert NodeOk(g, rank, root);
    if x != root {
      HeightFalls(g, rank, root);
      if x in Reach(g, rank, g[root].jt) {
        HeightUnderRoot(g, rank, g[root].jt, x);
      } else {
        HeightUnderRoot(g, rank, g[root].jf, x);
      }
    }
  }

  lemma SweepStart(g: Graph, rank: Rank, root: nat, level: seq<nat>, rows: Rows)
    requires LevelsOf(g, rank, root, level, rows)
    ensures level[root] < |rows| && Swept(g, rank, root, rows, {}, level[root], 0)
  {
    assert OnRow(g, rank, level, rows, root);
    forall x | x in Reach(g, rank, root) && x in rank ensures Height(g, rank, x) <= level[root] {
      HeightUnderRoot(g, rank, root, x);
    }
  }

  lemma RowDone(g: Graph, rank: Rank, root: nat, level: seq<nat>, rows: Rows, seen: set<nat>, i: nat)
    requires LevelsOf(g, rank, root, level, rows) && i < |rows| && Swept(g, rank, root, rows, seen, i, |rows[i]|)
    ensures i > 0 ==> Swept(g, rank, root, rows, seen, i - 1, 0)
    ensures i == 0 ==> seen == Reach(g, rank, root)
  {
    assert rows[i][..|rows[i]|] == rows[i];
    forall x | x in Reach(g, rank, root) && x in rank
      ensures x in seen <==> Height(g, rank, x) >= i {
      assert OnRow(g, rank, level, rows, x);
    }
    forall x | x in Reach(g, rank, root) ensures x in rank {
      ReachRanked(g, rank, root, x);
    }
  }

  lemma SweepStep(g: Graph, rank: Rank, root: nat, level: seq<nat>, rows: Rows, seen: set<nat>, i: nat, k: nat)
    requires LevelsOf(g, rank, root, level, rows) && i < |rows| && k < |rows[i]| &&
      Swept(g, rank, root, rows, seen, i, k)
    ensures
      var b := rows[i][k];
      && b in Reach(g, rank, root) && b in rank && b < |g| && b !in seen && Height(g, rank, b) == i
      && Swept(g, rank, root, rows, seen + {b}, i, k + 1)
  {
    var b := rows[i][k];
    assert RowOk(g, rank, rows, Reach(g, rank, root), i);
    ElemsIn(rows[i], b);
    NoRepeatAt(rows[i], k);
    assert rows[i][..k + 1][..k] == rows[i][..k];
  }

  /** When the sweep comes to a block, all its predecessors have been visited. */
  lemma SweepNext(g: Graph, rank: Rank, root: nat, level: seq<nat>, rows: Rows, seen: set<nat>, i: nat, k: nat)
    requires LevelsOf(g, rank, root, level, rows) && i < |rows| && k < |rows[i]| &&
      Swept(g, rank, root, rows, seen, i, k)
    ensures Next(BlockNet(g, rank, root), seen, rows[i][k])
  {
    SweepStep(g, rank, root, level, rows, seen, i, k);
    var N, b := BlockNet(g, rank, root), rows[i][k];
    BlockNetOk(g, rank, root);
    SuccsUnseen(g, rank, root, rows, seen, i, k, b);
    forall u | u in N.active && Linked(N.links, u, b) ensures u in seen {
      assert Falls(N, u, b);
      ReachRanked(g, rank, root, u);
    }
  }

  lemma SuccsUnseen(g: Graph, rank: Rank, root: nat, rows: Rows, seen: set<nat>, i: nat, k: nat, b: nat)
    requires WellFormed(g, rank) && root in rank && i < |rows| && k <= |rows[i]| &&
      Swept(g, rank, root, rows, seen, i, k)
    requires b in rank && b in Reach(g, rank, root) && Height(g, rank, b) == i
    ensures g[b].jt !in seen && g[b].jf !in seen
  {
    assert NodeOk(g, rank, b);
    if !g[b].Leaf() {
      HeightFalls(g, rank, b);
    }
  }

  lemma SweepTo(g: Graph, rank: Rank, root: nat, level: seq<nat>, rows: Rows, seen: set<nat>, i: nat, k: nat)
    requires LevelsOf(g, rank, root, level, rows) && i < |rows| && k < |rows[i]| &&
      Swept(g, rank, root, rows, seen, i, k)
    ensures rows[i][k] in Reach(g, rank, root) && rows[i][k] < |g| && Next(BlockNet(g, rank, root), seen, rows[i][k])
    ensures Swept(g, rank, root, rows, seen + {rows[i][k]}, i, k + 1)
  {
    SweepStep(g, rank, root, level, rows, seen, i, k);
    SweepNext(g, rank, root, level, rows, seen, i, k);
  }

  /** `E'` is `E` and two more. */
  ghost predicate WithTwo(E: set<nat>, E': set<nat>, b: nat, c: nat) {
    forall e: nat {:trigger e in E'} :: e in E' <==> e in E || e == b || e == c
  }

  lemma EdgesOfMore(g: Graph, seen: set<nat>, b: nat)
    requires b < |g|
    ensures WithTwo(EdgesOf(g, seen), EdgesOf(g, seen + {b}), b, |g| + b)
  {
    forall e: nat ensures e in EdgesOf(g, seen + {b}) <==> e in EdgesOf(g, seen) || e == b || e == |g| + b {
      EdgeMember(g, seen, e);
      EdgeMember(g, seen + {b}, e);
      EdgesFrom(g, e, b);
    }
  }

  lemma EdgesFrom(g: Graph, e: nat, b: nat)
    requires b < |g|
    ensures e < 2 * |g| && Pred(g, e) == b <==> e == b || e == |g| + b
  {
  }

  lemma EdgeInto(g: Graph, rank: Rank, root: nat, seen: set<nat>, b: nat, f: nat, u: nat)
    requires WellFormed(g, rank) && root in rank && b < |g| && Next(BlockNet(g, rank, root), seen, b)
    requires f == b || f == |g| + b
    requires u in EdgeNet(g, rank, root).active && Linked(EdgeNet(g, rank, root).links, u, f)
    ensures u in EdgesOf(g, seen)
  {
    var a := Pred(g, u);
    ReachRanked(g, rank, root, a);
    assert NodeOk(g, rank, a);
    assert Succ(g, u) == b;
    assert Linked(BlockNet(g, rank, root).links, a, b);
  }

  predicate SuccIs(g: Graph, N: Net, e: nat) {
    && e < 2 * |g| && e < |N.links.s0| == |N.links.s1|
    && N.links.s0[e] == Succ(g, e) && N.links.s1[e] == if Succ(g, e) < 0 then -1 else |g| + Succ(g, e)
  }

  /** Edge `f` may be visited next, and does not lead back to `b`; kept folded. */
  ghost predicate OneStep(g: Graph, N: Net, E: set<nat>, b: nat, f: nat) {
    forall u {:trigger Opened(u)} :: Opened(u) ==> Next(N, E, f) && SuccIs(g, N, f) && Succ(g, f) != b
  }

  /** From `E` the two edges of a block come next, and lead to `E'`. */
  ghost predicate TwoSteps(g: Graph, N: Net, E: set<nat>, E': set<nat>, b: nat) {
    b < |g| && OneStep(g, N, E, b, b) && OneStep(g, N, E, b, |g| + b) && WithTwo(E, E', b, |g| + b)
  }

  lemma EdgeStep(g: Graph, rank: Rank, root: nat, seen: set<nat>, b: nat)
    requires WellFormed(g, rank) && root in rank && b < |g| && b in Reach(g, rank, root)
    requires Next(BlockNet(g, rank, root), seen, b)
    ensures TwoSteps(g, EdgeNet(g, rank, root), EdgesOf(g, seen), EdgesOf(g, seen + {b}), b)
  {
    EdgeStepAt(g, rank, root, seen, b, b);
    EdgeStepAt(g, rank, root, seen, b, |g| + b);
    EdgesOfMore(g, seen, b);
  }

  /** The two edges are visited one after the other. */
  lemma InTurn(g: Graph, N: Net, E: set<nat>, E': set<nat>, b: nat)
    requires TwoSteps(g, N, E, E', b)
    ensures b < |g| && Next(N, E, b) && SuccIs(g, N, b) && SuccIs(g, N, |g| + b)
    ensures Next(N, E + {b}, |g| + b) && E + {b} + {|g| + b} == E'
  {
    assert Opened(Key);
    NextMore(N, E, b, |g| + b);
  }

  lemma NextMore(N: Net, seen: set<nat>, v: nat, w: nat)
    requires Next(N, seen, w) && v != w && v < |N.links.s0| && N.links.s0[w] != v && N.links.s1[w] != v
    ensures Next(N, seen + {v}, w)
  {
  }

  /** What `Next` says of the edges of a block. */
  lemma EdgeStepAt(g: Graph, rank: Rank, root: nat, seen: set<nat>, b: nat, f: nat)
    requires WellFormed(g, rank) && root in rank && b < |g| && b in Reach(g, rank, root)
    requires Next(BlockNet(g, rank, root), seen, b) && (f == b || f == |g| + b)
    ensures OneStep(g, EdgeNet(g, rank, root), EdgesOf(g, seen), b, f)
  {
    var N, E := EdgeNet(g, rank, root), EdgesOf(g, seen);
    EdgeAfter(g, rank, root, seen, b, f);
    EdgeLinks(g, rank, root, f);
    forall u | u in N.active && Linked(N.links, u, f) ensures u in E {
      EdgeInto(g, rank, root, seen, b, f, u);
    }
  }

  lemma EdgeLinks(g: Graph, rank: Rank, root: nat, f: nat)
    requires WellFormed(g, rank) && root in rank && f < 2 * |g|
    ensures SuccIs(g, EdgeNet(g, rank, root), f)
  {
  }

  lemma EdgeAfter(g: Graph, rank: Rank, root: nat, seen: set<nat>, b: nat, f: nat)
    requires WellFormed(g, rank) && root in rank && b < |g| && b in Reach(g, rank, root)
    requires Next(BlockNet(g, rank, root), seen, b) && (f == b || f == |g| + b)
    ensures f in EdgesOf(g, Reach(g, rank, root)) && f !in EdgesOf(g, seen)
    ensures
      var E, s := EdgesOf(g, seen), Succ(g, f);
      s !in E && (s >= 0 ==> |g| + s !in E) && s != b && s < |g|
  {
    SuccAfter(g, rank, root, seen, b, f);
    EdgeFresh(g, Reach(g, rank, root), seen, b, f);
  }

  lemma EdgeFresh(g: Graph, R: set<nat>, seen: set<nat>, b: nat, f: nat)
    requires b in R && b !in seen && b < |g| && (f == b || f == |g| + b)
    requires Succ(g, f) !in seen && -1 <= Succ(g, f) < |g|
    ensures f in EdgesOf(g, R) && f !in EdgesOf(g, seen)
    ensures
      var E, s := EdgesOf(g, seen), Succ(g, f);
      s !in E && (s >= 0 ==> |g| + s !in E)
  {
    var s := Succ(g, f);
    EdgeMember(g, seen, f);
    EdgeMember(g, R, f);
    if s >= 0 {
      EdgeMember(g, seen, s);
      EdgeMember(g, seen, |g| + s);
      assert Pred(g, s) == s && Pred(g, |g| + s) == s;
    }
  }

  lemma EdgeMember(g: Graph, S: set<nat>, e: nat)
    ensures e in EdgesOf(g, S) <==> e < 2 * |g| && Pred(g, e) in S
  {
  }

  lemma SuccAfter(g: Graph, rank: Rank, root: nat, seen: set<nat>, b: nat, f: nat)
    requires WellFormed(g, rank) && root in rank && b < |g| && b in Reach(g, rank, root)
    requires Next(BlockNet(g, rank, root), seen, b) && (f == b || f == |g| + b)
    ensures Succ(g, f) !in seen && Succ(g, f) != b && -1 <= Succ(g, f) < |g|
  {
    var M := BlockNet(g, rank, root);
    ReachRanked(g, rank, root, b);
    assert NodeOk(g, rank, b);
    assert M.links.s0[b] == g[b].jt && M.links.s1[b] == g[b].jf;
    assert !Linked(M.links, b, b);
  }

  // ----- the sweeps

  class PathFinder {
    const g: Graph
    ghost const rank: Rank
    const level: seq<nat>
    const levels: Rows
    var dom: seq<set<nat>>
    var edom: seq<set<nat>>
    var closure: seq<set<nat>>

    constructor (g: Graph, ghost rank: Rank, level: seq<nat>, levels: Rows)
      ensures this.g == g && this.rank == rank && this.level == level && this.levels == levels
    {
      this.g, this.rank, this.level, this.levels := g, rank, level, levels;
      dom, edom, closure := [], [], [];
    }

    /** Starts with every set full but the root's, and visits the blocks from the root's
        level down to the leaves. */
    method FindDom(root: nat)
      requires LevelsOf(g, rank, root, level, levels)
      modifies this`dom
      ensures Visited(BlockNet(g, rank, root), Reach(g, rank, root), dom, true)
    {
      ghost var N, seen: set<nat> := BlockNet(g, rank, root), {};
      dom := seq(|g|, b => Upto(|g|))[root := {}];
      BlockNetOk(g, rank, root);
      StartAll(N, dom);
      SweepStart(g, rank, root, level, levels);
      var i := level[root] + 1;
      while i > 0
        invariant Visited(N, seen, dom, true) && 0 <= i <= |levels|
        invariant i > 0 ==> Swept(g, rank, root, levels, seen, i - 1, 0)
        invariant i == 0 ==> seen == Reach(g, rank, root)
      {
        i := i - 1;
        seen := DomLevel(root, i, seen);
        RowDone(g, rank, root, level, levels, seen, i);
      }
    }

    method DomLevel(root: nat, i: nat, ghost seen0: set<nat>) returns (ghost seen: set<nat>)
      requires LevelsOf(g, rank, root, level, levels) && i < |levels| && Swept(g, rank, root, levels, seen0, i, 0)
      requires Visited(BlockNet(g, rank, root), seen0, dom, true)
      modifies this`dom
      ensures Swept(g, rank, root, levels, seen, i, |levels[i]|)
      ensures Visited(BlockNet(g, rank, root), seen, dom, true)
    {
      seen := seen0;
      var k := 0;
      while k < |levels[i]|
        invariant Visited(BlockNet(g, rank, root), seen, dom, true) && k <= |levels[i]|
        invariant Swept(g, rank, root, levels, seen, i, k)
      {
        SweepTo(g, rank, root, level, levels, seen, i, k);
        DomBlock(levels[i][k], root, seen);
        seen := seen + {levels[i][k]};
        k := k + 1;
      }
    }

    method DomBlock(b: nat, ghost root: nat, ghost seen: set<nat>)
      requires WellFormed(g, rank) && root in rank && b in Reach(g, rank, root) && b < |g|
      requires Next(BlockNet(g, rank, root), seen, b)
      requires Visited(BlockNet(g, rank, root), seen, dom, true)
      modifies this`dom
      ensures Visited(BlockNet(g, rank, root), seen + {b}, dom, true)
    {
      VisitStep(BlockNet(g, rank, root), seen, dom, true, b);
      dom := Visit(dom, b, g[b].jt, g[b].jf, true);
    }

    /** The same for edges: each passes its set to the two edges of its successor. */
    method FindEdom(root: nat)
      requires LevelsOf(g, rank, root, level, levels)
      modifies this`edom
      ensures Visited(EdgeNet(g, rank, root), EdgesOf(g, Reach(g, rank, root)), edom, true)
    {
      ghost var N, seen: set<nat> := EdgeNet(g, rank, root), {};
      edom := seq(2 * |g|, e => Upto(2 * |g|))[root := {}][|g| + root := {}];
      EdgeNetOk(g, rank, root);
      StartAll(N, edom);
      assert EdgesOf(g, {}) == {};
      SweepStart(g, rank, root, level, levels);
      var i := level[root] + 1;
      while i > 0
        invariant Visited(N, EdgesOf(g, seen), edom, true) && 0 <= i <= |levels|
        invariant i > 0 ==> Swept(g, rank, root, levels, seen, i - 1, 0)
        invariant i == 0 ==> seen == Reach(g, rank, root)
      {
        i := i - 1;
        seen := EdomLevel(root, i, seen);
        RowDone(g, rank, root, level, levels, seen, i);
      }
    }

    method EdomLevel(root: nat, i: nat, ghost seen0: set<nat>) returns (ghost seen: set<nat>)
      requires LevelsOf(g, rank, root, level, levels) && i < |levels| && Swept(g, rank, root, levels, seen0, i, 0)
      requires Visited(EdgeNet(g, rank, root), EdgesOf(g, seen0), edom, true)
      modifies this`edom
      ensures Swept(g, rank, root, levels, seen, i, |levels[i]|)
      ensures Visited(EdgeNet(g, rank, root), EdgesOf(g, seen), edom, true)
    {
      seen := seen0;
      var k := 0;
      while k < |levels[i]|
        invariant Visited(EdgeNet(g, rank, root), EdgesOf(g, seen), edom, true) && k <= |levels[i]|
        invariant Swept(g, rank, root, levels, seen, i, k)
      {
        SweepTo(g, rank, root, level, levels, seen, i, k);
        var b := levels[i][k];
        EdgeStep(g, rank, root, seen, b);
        EdomBlock(b, EdgeNet(g, rank, root), EdgesOf(g, seen), EdgesOf(g, seen + {b}));
        seen := seen + {b};
        k := k + 1;
      }
    }

    method EdomBlock(b: nat, ghost N: Net, ghost E: set<nat>, ghost E': set<nat>)
      requires TwoSteps(g, N, E, E', b) && Visited(N, E, edom, true)
      modifies this`edom
      ensures Visited(N, E', edom, true)
    {
      InTurn(g, N, E, E', b);
      PropEdom(b, N, E);
      PropEdom(|g| + b, N, E + {b});
    }

    method PropEdom(e: nat, ghost N: Net, ghost seen: set<nat>)
      requires e < 2 * |g| && SuccIs(g, N, e)
      requires Visited(N, seen, edom, true) && Next(N, seen, e)
      modifies this`edom
      ensures Visited(N, seen + {e}, edom, true)
    {
      VisitStep(N, seen, edom, true, e);
      var s := Succ(g, e);
      edom := Visit(edom, e, s, if s < 0 then -1 else |g| + s, true);
    }

    /** Starts with empty sets and passes unions down. */
    method FindClosure(root: nat)
      requires LevelsOf(g, rank, root, level, levels)
      modifies this`closure
      ensures Visited(BlockNet(g, rank, root), Reach(g, rank, root), closure, false)
    {
      ghost var N, seen: set<nat> := BlockNet(g, rank, root), {};
      closure := seq(|g|, b => {});
      BlockNetOk(g, rank, root);
      StartSome(N, closure);
      SweepStart(g, rank, root, level, levels);
      var i := level[root] + 1;
      while i > 0
        invariant Visited(N, seen, closure, false) && 0 <= i <= |levels|
        invariant i > 0 ==> Swept(g, rank, root, levels, seen, i - 1, 0)
        invariant i == 0 ==> seen == Reach(g, rank, root)
      {
        i := i - 1;
        seen := ClosureLevel(root, i, seen);
        RowDone(g, rank, root, level, levels, seen, i);
      }
    }

    method ClosureLevel(root: nat, i: nat, ghost seen0: set<nat>) returns (ghost seen: set<nat>)
      requires LevelsOf(g, rank, root, level, levels) && i < |levels| && Swept(g, rank, root, levels, seen0, i, 0)
      requires Visited(BlockNet(g, rank, root), seen0, closure, false)
      modifies this`closure
      ensures Swept(g, rank, root, levels, seen, i, |levels[i]|)
      ensures Visited(BlockNet(g, rank, root), seen, closure, false)
    {
      seen := seen0;
      var k := 0;
      while k < |levels[i]|
        invariant Visited(BlockNet(g, rank, root), seen, closure, false) && k <= |levels[i]|
        invariant Swept(g, rank, root, levels, seen, i, k)
      {
        SweepTo(g, rank, root, level, levels, seen, i, k);
        ClosureBlock(levels[i][k], root, seen);
        seen := seen + {levels[i][k]};
        k := k + 1;
      }
    }

    method ClosureBlock(b: nat, ghost root: nat, ghost seen: set<nat>)
      requires WellFormed(g, rank) && root in rank && b in Reach(g, rank, root) && b < |g|
      requires Next(BlockNet(g, rank, root), seen, b)
      requires Visited(BlockNet(g, rank, root), seen, closure, false)
      modifies this`closure
      ensures Visited(BlockNet(g, rank, root), seen + {b}, closure, false)
    {
      VisitStep(BlockNet(g, rank, root), seen, closure, false, b);
      closure := Visit(closure, b, g[b].jt, g[b].jf, false);
    }
  }

  lemma StartAll(N: Net, sets: seq<set<nat>>)
    requires NetOk(N) && |sets| == |N.depth|
    requires forall v :: 0 <= v < |sets| ==> sets[v] == if v in N.roots then {} else Upto(|sets|)
    ensures Visited(N, {}, sets, true)
  {
    forall v | 0 <= v < |sets| ensures VisitedAt(N, {}, sets, true, v) {
    }
  }

  lemma StartSome(N: Net, sets: seq<set<nat>>)
    requires NetOk(N) && |sets| == |N.depth| && forall v :: 0 <= v < |sets| ==> sets[v] == {}
    ensures Visited(N, {}, sets, false)
  {
    forall v | 0 <= v < |sets| ensures VisitedAt(N, {}, sets, false, v) {
    }
  }

  // ----- what the sweeps have found

  lemma DepthUnderRoot(g: Graph, rank: Rank, root: nat)
    requires WellFormed(g, rank) && root in rank
    ensures forall v :: v in BlockNet(g, rank, root).active ==>
      v < |g| && BlockNet(g, rank, root).depth[v] <= Height(g, rank, root)
    ensures forall e :: e in EdgeNet(g, rank, root).active ==>
      e < 2 * |g| && EdgeNet(g, rank, root).depth[e] <= Height(g, rank, root)
  {
    forall v | v in Reach(g, rank, root) ensures v < |g| && v in rank && Height(g, rank, v) <= Height(g, rank, root) {
      ReachRanked(g, rank, root, v);
      HeightUnderRoot(g, rank, root, v);
    }
  }

  /** A block is in the dominator set exactly when every path from the root passes it. */
  lemma DominatorsExact(g: Graph, rank: Rank, root: nat, dom: seq<set<nat>>, b: nat, d: nat)
    requires WellFormed(g, rank) && root in rank && b in Reach(g, rank, root) && d < |g|
    requires Visited(BlockNet(g, rank, root), Reach(g, rank, root), dom, true)
    ensures b < |dom|
    ensures d in dom[b] <==> forall ns :: Path(BlockNet(g, rank, root), ns, b) ==> d in Elems(ns)
  {
    DepthUnderRoot(g, rank, root);
    EveryPath(BlockNet(g, rank, root), dom, b, d, Height(g, rank, root));
  }

  /** An edge is in the edge dominator set of `e` exactly when every path of edges from
      the root that ends in `e` takes it. */
  lemma EdgeDominatorsExact(g: Graph, rank: Rank, root: nat, edom: seq<set<nat>>, e: nat, d: nat)
    requires WellFormed(g, rank) && root in rank && e < 2 * |g| && Pred(g, e) in Reach(g, rank, root) && d < 2 * |g|
    requires Visited(EdgeNet(g, rank, root), EdgesOf(g, Reach(g, rank, root)), edom, true)
    ensures e < |edom|
    ensures d in edom[e] <==> forall es :: Path(EdgeNet(g, rank, root), es, e) ==> d in Elems(es)
  {
    DepthUnderRoot(g, rank, root);
    EveryPath(EdgeNet(g, rank, root), edom, e, d, Height(g, rank, root));
  }

  /** A block is in the closure set exactly when some path leads from it to `b`. */
  lemma ClosureExact(g: Graph, rank: Rank, root: nat, closure: seq<set<nat>>, b: nat, d: nat)
    requires WellFormed(g, rank) && root in rank && b in Reach(g, rank, root)
    requires Visited(BlockNet(g, rank, root), Reach(g, rank, root), closure, false)
    ensures b < |closure|
    ensures d in closure[b] <==> exists ns :: Leads(BlockNet(g, rank, root), ns, d, b)
  {
    DepthUnderRoot(g, rank, root);
    SomePath(BlockNet(g, rank, root), closure, b, d, Height(g, rank, root));
  }
}
