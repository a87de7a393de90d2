/** Which atoms are still wanted where, computed up the levels. */
module Liveness {
  import opened Bpf
  import opened Flow
  import opened Lists
  import opened Layout
  import opened Dag
  import opened Levels
  import opened PathFacts
  import opened Atoms

  // ----- one block

  /** The atoms read before the list writes them. */
  function Wanted(ss: seq<Stmt>): set<nat> {
    if ss == [] then {}
    else
      var init, s := ss[..|ss| - 1], ss[|ss| - 1];
      Wanted(init) + (Uses(s) - DefsOf(init))
  }

  /** What a block wants on entry for itself: its statements' and its branch's reads. */
  function BlockWants(n: Node): set<nat> {
    Wanted(n.stmts) + (if n.Leaf() then {} else Uses(n.s) - DefsOf(n.stmts))
  }

  /** Reads are covered by `D` and by earlier writes. */
  ghost predicate Covered(ss: seq<Stmt>, D: set<nat>) {
    Wanted(ss) <= D
  }

  /** States that agree on what a list wants leave it agreeing on that and on what it
      has written. */
  lemma {:induction false} ListAgree(ss: seq<Stmt>, D: set<nat>, st: Store, st': Store, p: Packet)
    requires Covered(ss, D) && AgreeOn(D, st, st')
    ensures ExecList(ss, st, p).Some? <==> ExecList(ss, st', p).Some?
    ensures ExecList(ss, st, p).Some? ==> AgreeOn(D + DefsOf(ss), ExecList(ss, st, p).value, ExecList(ss, st', p).value)
    decreases |ss|
  {
    if ss != [] {
      var init, s := ss[..|ss| - 1], ss[|ss| - 1];
      ListAgree(init, D, st, st', p);
      assert init + [s] == ss;
      ExecSnoc(init, s, st, p);
      ExecSnoc(init, s, st', p);
      if ExecList(init, st, p).Some? {
        StmtAgree(s, D + DefsOf(init), ExecList(init, st, p).value, ExecList(init, st', p).value, p);
        assert D + DefsOf(init) + DefSet(s) == D + DefsOf(ss);
      }
    }
  }

  // ----- the whole graph

  /** What is wanted on exit from a block: what its successors want on entry. */
  ghost function LiveOut(g: Graph, rank: Rank, b: int): set<nat>
    requires WellFormed(g, rank) && b in rank
    decreases rank[b], 0
  {
    assert NodeOk(g, rank, b);
    if g[b].Leaf() then {} else LiveIn(g, rank, g[b].jt) + LiveIn(g, rank, g[b].jf)
  }

  /** What is wanted on entry: what the block itself wants, and what is wanted on exit
      and it does not write. */
  ghost function LiveIn(g: Graph, rank: Rank, b: int): set<nat>
    requires WellFormed(g, rank) && b in rank
    decreases rank[b], 1
  {
    assert NodeOk(g, rank, b);
    BlockWants(g[b]) + (LiveOut(g, rank, b) - DefsOf(g[b].stmts))
  }

  /** From two states that agree on what is wanted, the verdict is the same. */
  lemma {:induction false} LiveSound(g: Graph, rank: Rank, b: int, st: Store, st': Store, p: Packet)
    requires WellFormed(g, rank) && b in rank && AgreeOn(LiveIn(g, rank, b), st, st')
    ensures Run(g, rank, b, st, p) == Run(g, rank, b, st', p)
    decreases rank[b]
  {
    assert NodeOk(g, rank, b);
    var D := LiveIn(g, rank, b);
    ListAgree(g[b].stmts, D, st, st', p);
    if ExecList(g[b].stmts, st, p).Some? && !g[b].Leaf() {
      var s1, s2 := ExecList(g[b].stmts, st, p).value, ExecList(g[b].stmts, st', p).value;
      BranchAgree(g[b].s, D + DefsOf(g[b].stmts), s1, s2);
      var c := if Holds(g[b].s, s1) then g[b].jt else g[b].jf;
      assert LiveIn(g, rank, c) <= LiveOut(g, rank, b) <= D + DefsOf(g[b].stmts);
      LiveSound(g, rank, c, s1, s2, p);
    }
  }

  lemma BranchAgree(s: Stmt, D: set<nat>, st: Store, st': Store)
    requires Uses(s) <= D && AgreeOn(D, st, st')
    ensures Holds(s, st) == Holds(s, st')
  {
    forall a | a in Uses(s) && a < N_ATOMS ensures st[a] == st'[a] {
    }
    UsesOnlyBranch(s, st, st');
  }

  // ----- the computation

  class LiveSets {
    const g: Graph
    ghost const rank: Rank
    const level: seq<nat>
    const levels: Rows
    var def: seq<set<nat>>
    var kill: seq<set<nat>>
    var inUse: seq<set<nat>>
    var outUse: seq<set<nat>>

    constructor (g: Graph, ghost rank: Rank, level: seq<nat>, levels: Rows)
      ensures this.g == g && this.rank == rank && this.level == level && this.levels == levels
      ensures |def| == |kill| == |inUse| == |outUse| == |g|
    {
      this.g, this.rank, this.level, this.levels := g, rank, level, levels;
      def, kill := seq(|g|, b => {}), seq(|g|, b => {});
      inUse, outUse := seq(|g|, b => {}), seq(|g|, b => {});
    }

    ghost predicate Sized()
      reads this
    {
      |def| == |kill| == |inUse| == |outUse| == |g|
    }

    /** The block's own sets: an atom is killed when it is written before any read. */
    ghost predicate Local(b: nat)
      reads this
      requires b < |g| && Sized()
    {
      def[b] == DefsOf(g[b].stmts) && kill[b] == def[b] - Wanted(g[b].stmts)
    }

    method ComputeLocalUd(b: nat)
      requires Sized() && b < |g| && (g[b].Leaf() || TwoWay(g[b].s))
      modifies this`def, this`kill, this`inUse
      ensures Sized() && Local(b) && inUse[b] == BlockWants(g[b])
      ensures forall c {:trigger def[c]} {:trigger kill[c]} {:trigger inUse[c]} :: 0 <= c < |g| && c != b ==>
        def[c] == old(def)[c] && kill[c] == old(kill)[c] && inUse[c] == old(inUse)[c]
    {
      var ss := g[b].stmts;
      var d: set<nat>, use: set<nat>, k: set<nat> := {}, {}, {};
      var i := 0;
      assert ss[..0] == [];
      while i < |ss|
        invariant 0 <= i <= |ss| && d == DefsOf(ss[..i]) && use == Wanted(ss[..i]) && k == d - use
      {
        var s := ss[i];
        assert ss[..i + 1][..i] == ss[..i];
        use := use + (Uses(s) - d);
        if Defs(s).Some? {
          var a := Defs(s).value;
          if a !in use {
            k := k + {a};
          }
          d := d + {a};
        }
        i := i + 1;
      }
      assert ss[..|ss|] == ss;
      if TwoWay(g[b].s) {
        use := use + (Uses(g[b].s) - d);
      }
      def, kill, inUse := def[b := d], kill[b := k], inUse[b := use];
    }

    /** The block's own sets are there, and nothing yet from below. */
    ghost predicate Begun(b: nat)
      reads this
      requires b < |g| && Sized()
    {
      Local(b) && inUse[b] == BlockWants(g[b]) && outUse[b] == {}
    }

    ghost predicate Finished(b: nat)
      reads this
      requires WellFormed(g, rank) && b in rank && b < |g| && Sized()
    {
      inUse[b] == LiveIn(g, rank, b) && outUse[b] == LiveOut(g, rank, b)
    }

    ghost predicate AllBegun(S: set<nat>)
      reads this
    {
      Sized() && forall b {:trigger Begun(b)} :: b in S && b < |g| ==> Begun(b)
    }

    /** The blocks below the sweep are finished, the others begun. */
    ghost predicate Between(R: set<nat>, S: set<nat>)
      reads this
    {
      && WellFormed(g, rank) && Sized() && (forall b :: b in R ==> b in rank && b < |g|)
      && (forall b {:trigger Finished(b)} :: b in R && b in rank && b < |g| && b in S ==> Finished(b))
      && (forall b {:trigger Begun(b)} :: b in R && b < |g| && b !in S ==> Begun(b))
    }

    method BeginBlock(b: nat, ghost S: set<nat>)
      requires AllBegun(S) && b < |g| && b !in S && (g[b].Leaf() || TwoWay(g[b].s))
      modifies this
      ensures AllBegun(S + {b})
    {
      ComputeLocalUd(b);
      outUse := outUse[b := {}];
      forall c | c in S + {b} && c < |g| ensures Begun(c) {
        if c != b {
          assert old(Begun(c));
          assert def[c] == old(def[c]);
        }
      }
    }

    method BeginLevel(root: nat, i: nat, ghost S0: set<nat>) returns (ghost S: set<nat>)
      requires LevelsOf(g, rank, root, level, levels) && i < |levels| && Swept(g, rank, root, levels, S0, i, 0)
      requires AllBegun(S0)
      modifies this
      ensures Swept(g, rank, root, levels, S, i, |levels[i]|) && AllBegun(S)
    {
      S := S0;
      var k := 0;
      while k < |levels[i]|
        invariant k <= |levels[i]| && Swept(g, rank, root, levels, S, i, k) && AllBegun(S)
      {
        var b := levels[i][k];
        SweepStep(g, rank, root, level, levels, S, i, k);
        assert NodeOk(g, rank, b);
        BeginBlock(b, S);
        S := S + {b};
        k := k + 1;
      }
    }

    /** A block takes over what its successors want. */
    method FinishBlock(b: nat, ghost R: set<nat>, ghost S: set<nat>)
      requires Between(R, S) && b in R && b < |g| && b !in S && !g[b].Leaf()
      requires g[b].jt in R && g[b].jt in S && g[b].jf in R && g[b].jf in S && b in rank
      modifies this`inUse, this`outUse
      ensures Between(R, S + {b})
    {
      assert NodeOk(g, rank, b);
      assert Finished(g[b].jt) && Finished(g[b].jf) && Begun(b);
      outUse := outUse[b := outUse[b] + (inUse[g[b].jt] + inUse[g[b].jf])];
      inUse := inUse[b := inUse[b] + (outUse[b] - kill[b])];
      assert outUse[b] == LiveOut(g, rank, b);
      assert inUse[b] == LiveIn(g, rank, b);
      forall c | c in R && c in rank && c < |g| && c in S + {b} ensures Finished(c) {
        if c != b {
          assert old(Finished(c));
        }
      }
      forall c | c in R && c < |g| && c !in S + {b} ensures Begun(c) {
        assert old(Begun(c));
      }
    }

    /** The blocks of level `i` after position `k` and of higher levels are still to come. */
    ghost predicate Rising(root: nat, S: set<nat>, i: nat, k: nat)
      reads this
      requires WellFormed(g, rank) && root in rank && i < |levels| && k <= |levels[i]|
    {
      forall x :: x in Reach(g, rank, root) && x in rank ==>
        (x in S <==> Height(g, rank, x) < i || (Height(g, rank, x) == i && x in Elems(levels[i][..k])))
    }

    method FinishLevel(root: nat, i: nat, ghost S0: set<nat>) returns (ghost S: set<nat>)
      requires LevelsOf(g, rank, root, level, levels) && 0 < i < |levels|
      requires Rising(root, S0, i, 0) && Between(Reach(g, rank, root), S0)
      modifies this`inUse, this`outUse
      ensures Rising(root, S, i, |levels[i]|) && Between(Reach(g, rank, root), S)
    {
      S := S0;
      var k := 0;
      while k < |levels[i]|
        invariant k <= |levels[i]| && Rising(root, S, i, k) && Between(Reach(g, rank, root), S)
      {
        var b := levels[i][k];
        RisingStep(root, S, i, k);
        FinishBlock(b, Reach(g, rank, root), S);
        S := S + {b};
        k := k + 1;
      }
    }

    lemma RisingStep(root: nat, S: set<nat>, i: nat, k: nat)
      requires LevelsOf(g, rank, root, level, levels) && 0 < i < |levels| && k < |levels[i]| && Rising(root, S, i, k)
      ensures
        var b, R := levels[i][k], Reach(g, rank, root);
        && b in R && b in rank && b < |g| && b !in S && !g[b].Leaf() && Rising(root, S + {b}, i, k + 1)
        && g[b].jt in R && g[b].jt in S && g[b].jf in R && g[b].jf in S
    {
      var b, R := levels[i][k], Reach(g, rank, root);
      assert RowOk(g, rank, levels, R, i);
      ElemsIn(levels[i], b);
      NoRepeatAt(levels[i], k);
      ReachRanked(g, rank, root, b);
      assert levels[i][..k + 1][..k] == levels[i][..k];
      assert NodeOk(g, rank, b);
      LeavesAtLevelZero(g, rank, b);
      ReachSuccs(g, rank, root, b);
      HeightFalls(g, rank, b);
    }

    lemma RisingNext(root: nat, S: set<nat>, i: nat)
      requires LevelsOf(g, rank, root, level, levels) && i + 1 < |levels| && Rising(root, S, i, |levels[i]|)
      ensures Rising(root, S, i + 1, 0)
    {
      assert levels[i][..|levels[i]|] == levels[i];
      forall x | x in Reach(g, rank, root) && x in rank
        ensures x in S <==>
          Height(g, rank, x) < i + 1 || (Height(g, rank, x) == i + 1 && x in Elems(levels[i + 1][..0])) {
        assert OnRow(g, rank, level, levels, x);
      }
    }

    /** First every block's own sets, then what is wanted from below, one level at a time. */
    method FindUd(root: nat)
      requires Sized() && LevelsOf(g, rank, root, level, levels)
      modifies this
      ensures Sized() && forall b {:trigger Finished(b)} ::
        b in Reach(g, rank, root) && b in rank && b < |g| ==> Finished(b)
    {
      ghost var R := Reach(g, rank, root);
      FindLocal(root);
      ghost var S := LeavesDone(root);
      var i := 1;
      while i <= level[root]
        invariant 1 <= i <= level[root] + 1 && level[root] < |levels|
        invariant Between(R, S) && Rising(root, S, i - 1, |levels[i - 1]|)
      {
        RisingNext(root, S, i - 1);
        S := FinishLevel(root, i, S);
        i := i + 1;
      }
      forall b | b in R && b in rank && b < |g| ensures Finished(b) {
        HeightUnderRoot(g, rank, root, b);
        assert OnRow(g, rank, level, levels, b) && OnRow(g, rank, level, levels, root);
        assert levels[i - 1][..|levels[i - 1]|] == levels[i - 1];
      }
    }

    method FindLocal(root: nat)
      requires Sized() && LevelsOf(g, rank, root, level, levels)
      modifies this
      ensures AllBegun(Reach(g, rank, root)) && level[root] < |levels|
    {
      ghost var S: set<nat> := {};
      SweepStart(g, rank, root, level, levels);
      var i := level[root] + 1;
      while i > 0
        invariant 0 <= i <= |levels| && AllBegun(S)
        invariant i > 0 ==> Swept(g, rank, root, levels, S, i - 1, 0)
        invariant i == 0 ==> S == Reach(g, rank, root)
      {
        i := i - 1;
        S := BeginLevel(root, i, S);
        RowDone(g, rank, root, level, levels, S, i);
      }
    }

    /** Leaves want only what they read themselves. */
    lemma LeavesDone(root: nat) returns (S: set<nat>)
      requires LevelsOf(g, rank, root, level, levels) && AllBegun(Reach(g, rank, root)) && |levels| > 0
      ensures Between(Reach(g, rank, root), S) && Rising(root, S, 0, |levels[0]|)
    {
      var R := Reach(g, rank, root);
      S := Elems(levels[0]);
      assert levels[0][..|levels[0]|] == levels[0];
      assert RowOk(g, rank, levels, R, 0);
      forall b | b in R ensures b in rank && b < |g| {
        ReachRanked(g, rank, root, b);
      }
      forall b | b in R && b in rank && b < |g| && b in S ensures Finished(b) {
        assert Begun(b) && NodeOk(g, rank, b);
      }
    }
  }
}
