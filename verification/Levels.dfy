/** Leveling: every reachable block is put on the list of its level, its distance from
    the leaves. */
module Levels {
  import opened Flow
  import opened Lists
  import opened Layout
  import opened Dag

  /** The blocks of each level, most recently found first. */
  type Rows = seq<seq<nat>>

  /** A block that has been found and is not still being explored is on its level's list. */
  ghost predicate OnRow(g: Graph, rank: Rank, level: seq<nat>, rows: Rows, x: nat)
    requires WellFormed(g, rank) && |level| == |rows| == |g|
  {
    && x in rank && x < |g| && level[x] == Height(g, rank, x) && level[x] < |rows| && x in Elems(rows[level[x]])
    && (!g[x].Leaf() ==> g[x].jt >= 0 && g[x].jf >= 0)
  }

  /** The list of level `i` holds found blocks of that height, each once. */
  ghost predicate RowOk(g: Graph, rank: Rank, rows: Rows, done: set<nat>, i: nat)
    requires WellFormed(g, rank) && i < |rows|
  {
    && NoRepeat(rows[i])
    && forall x :: x in Elems(rows[i]) ==> x in done && x in rank && Height(g, rank, x) == i
  }

  /** `done` has been put on the lists, and nothing else. */
  ghost predicate Leveled(g: Graph, rank: Rank, level: seq<nat>, rows: Rows, done: set<nat>) {
    && WellFormed(g, rank) && |level| == |rows| == |g|
    && (forall x {:trigger OnRow(g, rank, level, rows, x)} :: x in done ==> OnRow(g, rank, level, rows, x))
    && (forall i {:trigger RowOk(g, rank, rows, done, i)} :: 0 <= i < |rows| ==> RowOk(g, rank, rows, done, i))
  }

  lemma PrependElems(x: nat, list: seq<nat>)
    ensures Elems([x] + list) == {x} + Elems(list)
    ensures NoRepeat(list) && x !in Elems(list) ==> NoRepeat([x] + list)
  {
    ElemsAppend([x], list);
    assert [x][..0] == [] && Elems([x]) == {x};
    if NoRepeat(list) && x !in Elems(list) {
      MergedNoRepeat([x], list);
    }
  }

  lemma Placed(g: Graph, rank: Rank, level: seq<nat>, rows: Rows, done: set<nat>, b: nat, l: nat)
    requires Leveled(g, rank, level, rows, done) && b in rank && b !in done && b < |g|
    requires l == Height(g, rank, b) < |rows|
    ensures Leveled(g, rank, level[b := l], rows[l := [b] + rows[l]], done + {b})
  {
    var level', rows', done' := level[b := l], rows[l := [b] + rows[l]], done + {b};
    PrependElems(b, rows[l]);
    assert NodeOk(g, rank, b);
    assert RowOk(g, rank, rows, done, l);
    forall x | x in done' ensures OnRow(g, rank, level', rows', x) {
      if x != b {
        assert OnRow(g, rank, level, rows, x);
      }
    }
    forall i | 0 <= i < |rows'| ensures RowOk(g, rank, rows', done', i) {
      assert RowOk(g, rank, rows, done, i);
    }
  }

  class Leveler {
    const g: Graph
    ghost const rank: Rank
    var mark: seq<nat>
    var curMark: nat
    var level: seq<nat>
    var levels: Rows

    constructor (g: Graph, ghost rank: Rank)
      requires WellFormed(g, rank)
      ensures this.g == g && this.rank == rank && Valid() && forall i :: 0 <= i < |g| ==> mark[i] <= curMark
    {
      this.g, this.rank := g, rank;
      mark, curMark := seq(|g|, i => 0), 0;
      level, levels := seq(|g|, i => 0), seq(|g|, i => []);
    }

    ghost predicate Valid()
      reads this
    {
      WellFormed(g, rank) && |mark| == |level| == |levels| == |g|
    }

    /** Marked blocks are on their lists, unless on the `stack` of blocks being explored;
        all of them are reachable. */
    ghost predicate Explored(R: set<nat>, done: set<nat>, stack: set<nat>)
      reads this
    {
      && Valid() && Leveled(g, rank, level, levels, done) && done <= R && done !! stack
      && (forall x {:trigger Marked(mark, curMark, x)} :: Marked(mark, curMark, x) <==> x in done || x in stack)
    }

    method FindLevelsR(b: nat, ghost R: set<nat>, ghost done: set<nat>, ghost stack: set<nat>)
      returns (ghost done': set<nat>)
      requires Explored(R, done, stack) && b in rank && R == R + Reach(g, rank, b)
      requires forall x :: x in stack ==> x in rank && rank[x] > rank[b]
      requires forall x :: x in done && x in rank ==> Reach(g, rank, x) <= done
      modifies this`mark, this`level, this`levels
      ensures Explored(R, done', stack) && done <= done'
      ensures b in done' && forall x :: x in done' && x in rank ==> Reach(g, rank, x) <= done'
      decreases rank[b]
    {
      assert NodeOk(g, rank, b);
      done' := done;
      assert Marked(mark, curMark, b) <==> b in done;
      if mark[b] == curMark {
        return;
      }
      mark := mark[b := curMark];
      assert forall x :: Marked(mark, curMark, x) <==> x == b || Marked(old(mark), curMark, x);
      var l := 0;
      if !g[b].Leaf() {
        done' := FindLevelsR(g[b].jt, R, done', stack + {b});
        done' := FindLevelsR(g[b].jf, R, done', stack + {b});
        assert OnRow(g, rank, level, levels, g[b].jt) && OnRow(g, rank, level, levels, g[b].jf);
        l := Max(level[g[b].jt], level[g[b].jf]) + 1;
      }
      LevelBound(g, rank, b);
      assert b !in done';
      Placed(g, rank, level, levels, done', b, l);
      level := level[b := l];
      levels := levels[l := [b] + levels[l]];
      done' := done' + {b};
    }

    /** Afterwards exactly the blocks reachable from the root are on the lists. */
    method FindLevels(root: nat)
      requires Valid() && root in rank && forall i :: 0 <= i < |g| ==> mark[i] <= curMark
      modifies this
      ensures Valid() && Leveled(g, rank, level, levels, Reach(g, rank, root))
    {
      levels := seq(|g|, i => []);
      curMark := curMark + 1;
      ghost var R := Reach(g, rank, root);
      forall i | 0 <= i < |g| ensures RowOk(g, rank, levels, {}, i) {
      }
      ghost var done := FindLevelsR(root, R, {}, {});
      assert done == R;
    }
  }
}
