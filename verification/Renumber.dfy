/** Numbering the reachable blocks, so that everything after it names them by number. */
module Renumber {
  import opened Bpf
  import opened Flow
  import opened Constancy
  import opened Lists
  import opened Layout
  import opened Dag
  import opened Runs
  import opened Interning

  /** The numbers and the blocks numbered so far are inverse to each other. */
  ghost predicate NumberOk(id: seq<int>, blocks: seq<nat>, x: nat) {
    x < |id| && (if id[x] == -1 then x !in Elems(blocks) else 0 <= id[x] < |blocks| && blocks[id[x]] == x)
  }

  ghost predicate BlockOk(id: seq<int>, blocks: seq<nat>, k: nat)
    requires k < |blocks|
  {
    blocks[k] < |id| && id[blocks[k]] == k
  }

  ghost predicate Numbers(n: nat, id: seq<int>, blocks: seq<nat>) {
    && |id| == n
    && (forall x {:trigger NumberOk(id, blocks, x)} :: 0 <= x < n ==> NumberOk(id, blocks, x))
    && (forall k {:trigger BlockOk(id, blocks, k)} :: 0 <= k < |blocks| ==> BlockOk(id, blocks, k))
  }

  lemma NumberMore(n: nat, id: seq<int>, blocks: seq<nat>, p: nat)
    requires Numbers(n, id, blocks) && p < n && id[p] == -1
    ensures Numbers(n, id[p := |blocks|], blocks + [p])
    ensures Elems(blocks + [p]) == Elems(blocks) + {p}
  {
    var id', blocks' := id[p := |blocks|], blocks + [p];
    assert blocks'[..|blocks'| - 1] == blocks;
    forall x | 0 <= x < n ensures NumberOk(id', blocks', x) {
      assert NumberOk(id, blocks, x);
    }
    forall k | 0 <= k < |blocks'| ensures BlockOk(id', blocks', k) {
      if k < |blocks| {
        assert BlockOk(id, blocks, k);
      }
    }
  }

  /** The successors of every numbered block off the stack are numbered. */
  ghost predicate SuccsNumbered(g: Graph, blocks: seq<nat>, stack: set<nat>) {
    forall x {:trigger x in Elems(blocks)} :: x in Elems(blocks) && x !in stack && x < |g| && !g[x].Leaf() ==>
      g[x].jt >= 0 && g[x].jf >= 0 && g[x].jt in Elems(blocks) && g[x].jf in Elems(blocks)
  }

  lemma Longer(b0: seq<nat>, b1: seq<nat>, b2: seq<nat>, b3: seq<nat>, p: nat)
    requires b1 == b0 + [p] && Prefix(b1, b2) && Prefix(b2, b3)
    ensures Prefix(b0, b3) && Elems(b1) <= Elems(b2) <= Elems(b3) && p in Elems(b1)
    ensures b0 == [] ==> b3 != [] && b3[0] == p
  {
    assert b1[..|b1| - 1] == b0;
    PrefixTrans(b1, b2, b3);
    PrefixTrans(b0, b1, b3);
    PrefixElems(b1, b2);
    PrefixElems(b2, b3);
  }

  class Numberer {
    const g: Graph
    ghost const rank: Rank
    var id: seq<int>
    var blocks: seq<nat>

    constructor (g: Graph, ghost rank: Rank)
      ensures this.g == g && this.rank == rank && Numbers(|g|, id, blocks) && blocks == []
    {
      this.g, this.rank := g, rank;
      id, blocks := seq(|g|, x => -1), [];
      new;
      forall x | 0 <= x < |g| ensures NumberOk(id, blocks, x) {
      }
    }

    ghost predicate Valid(R: set<nat>, stack: set<nat>)
      reads this
    {
      && WellFormed(g, rank) && Numbers(|g|, id, blocks)
      && Elems(blocks) <= R && stack <= Elems(blocks) && SuccsNumbered(g, blocks, stack)
    }

    /** Depth first, a block before its successors; numbered blocks are not visited again. */
    method NumberBlksR(p: int, ghost R: set<nat>, ghost stack: set<nat>)
      requires Valid(R, stack) && (p == -1 || p in rank) && Reach(g, rank, p) <= R
      modifies this
      ensures Valid(R, stack) && Prefix(old(blocks), blocks) && (p >= 0 ==> p in Elems(blocks))
      ensures p >= 0 && old(blocks) == [] ==> blocks != [] && blocks[0] == p
      decreases if p == -1 then 0 else rank[p] + 1
    {
      if p == -1 {
        return;
      }
      assert NodeOk(g, rank, p) && NumberOk(id, blocks, p);
      if id[p] != -1 {
        ElemsIn(blocks, p);
        return;
      }
      ghost var b0 := blocks;
      NumberMore(|g|, id, blocks, p);
      PrefixExtend(b0, b0, p);
      id := id[p := |blocks|];
      blocks := blocks + [p];
      ghost var b1 := blocks;
      NumberBlksR(g[p].jt, R, stack + {p});
      ghost var b2 := blocks;
      NumberBlksR(g[p].jf, R, stack + {p});
      Longer(b0, b1, b2, blocks, p);
    }

    /** Every reachable block gets a number, the root the number 0. */
    method NumberBlocks(root: nat)
      requires WellFormed(g, rank) && root in rank && Numbers(|g|, id, blocks) && blocks == []
      modifies this
      ensures Numbers(|g|, id, blocks) && SuccsNumbered(g, blocks, {}) && root < |g| && id[root] == 0 && |blocks| > 0
      ensures Elems(blocks) <= Reach(g, rank, root)
    {
      NumberBlksR(root, Reach(g, rank, root), {});
      assert BlockOk(id, blocks, 0);
    }
  }

  // ----- the graph by number

  function ById(id: seq<int>, x: int): int {
    if 0 <= x < |id| then id[x] else -1
  }

  function Renamed(g: Graph, id: seq<int>, blocks: seq<nat>): Graph
    requires forall k {:trigger blocks[k]} :: 0 <= k < |blocks| ==> blocks[k] < |g|
  {
    seq(|blocks|, k requires 0 <= k < |blocks| =>
      g[blocks[k]].(jt := ById(id, g[blocks[k]].jt), jf := ById(id, g[blocks[k]].jf)))
  }

  ghost predicate Numbered(g: Graph, rank: Rank, id: seq<int>, blocks: seq<nat>) {
    && WellFormed(g, rank) && Numbers(|g|, id, blocks) && SuccsNumbered(g, blocks, {})
    && (forall k {:trigger blocks[k]} :: 0 <= k < |blocks| ==> blocks[k] < |g| && blocks[k] in rank)
  }

  ghost function RankById(rank: Rank, blocks: seq<nat>): Rank
    requires forall k {:trigger blocks[k]} :: 0 <= k < |blocks| ==> blocks[k] in rank
  {
    map k: int | k in Upto(|blocks|) :: rank[blocks[k]]
  }

  /** The successors of a numbered block, by block and by number. */
  lemma SuccById(g: Graph, rank: Rank, id: seq<int>, blocks: seq<nat>, k: nat)
    requires Numbered(g, rank, id, blocks) && k < |blocks| && !g[blocks[k]].Leaf()
    ensures
      var n := g[blocks[k]];
      && 0 <= ById(id, n.jt) < |blocks| && blocks[ById(id, n.jt)] == n.jt
      && 0 <= ById(id, n.jf) < |blocks| && blocks[ById(id, n.jf)] == n.jf
  {
    var x := blocks[k];
    ElemsIn(blocks, x);
    assert x in Elems(blocks);
    assert NumberOk(id, blocks, g[x].jt) && NumberOk(id, blocks, g[x].jf) by {
      assert NodeOk(g, rank, x);
    }
  }

  lemma RenamedWf(g: Graph, rank: Rank, id: seq<int>, blocks: seq<nat>)
    requires Numbered(g, rank, id, blocks)
    ensures WellFormed(Renamed(g, id, blocks), RankById(rank, blocks)) && Shaped(Renamed(g, id, blocks))
  {
    var g', r := Renamed(g, id, blocks), RankById(rank, blocks);
    forall k | 0 <= k < |g'| ensures NodeOk(g', r, k) && (g'[k].jt == -1 <==> g'[k].jf == -1)
      && -1 <= g'[k].jt < |g'| && -1 <= g'[k].jf < |g'| {
      assert NodeOk(g, rank, blocks[k]);
      if !g[blocks[k]].Leaf() {
        SuccById(g, rank, id, blocks, k);
      }
    }
  }

  /** Numbering changes no run. */
  lemma {:induction false} RenamedRun(g: Graph, rank: Rank, id: seq<int>, blocks: seq<nat>, k: nat, st: Store,
                                      p: Packet)
    requires Numbered(g, rank, id, blocks) && WellFormed(Renamed(g, id, blocks), RankById(rank, blocks)) && k < |blocks|
    ensures Run(Renamed(g, id, blocks), RankById(rank, blocks), k, st, p) == Run(g, rank, blocks[k], st, p)
    decreases rank[blocks[k]]
  {
    var x := blocks[k];
    assert NodeOk(g, rank, x) && NodeOk(Renamed(g, id, blocks), RankById(rank, blocks), k);
    if ExecList(g[x].stmts, st, p).Some? && !g[x].Leaf() {
      SuccById(g, rank, id, blocks, k);
      var st1 := ExecList(g[x].stmts, st, p).value;
      RenamedRun(g, rank, id, blocks, if Holds(g[x].s, st1) then ById(id, g[x].jt) else ById(id, g[x].jf), st1, p);
    }
  }

  /** Of some numbers, those at distinct places come to no more than all of them. */
  lemma {:induction false} PickedTotal(w: seq<nat>, list: seq<nat>, v: seq<nat>)
    requires |v| == |list| && forall i, j :: 0 <= i < j < |list| ==> list[i] != list[j]
    requires forall k {:trigger list[k]} :: 0 <= k < |list| ==> list[k] < |w| && v[k] == w[list[k]]
    ensures Total(v) <= Total(w)
    decreases |list|
  {
    if list != [] {
      var l, x := list[..|list| - 1], list[|list| - 1];
      TotalZero(w, x);
      PickedTotal(w[x := 0], l, v[..|l|]);
    }
  }

  /** The graph by number, with every block reachable from the root that `R` bounds. */
  method Renumbered(g: Graph, ghost rank: Rank, root: nat) returns (g': Graph, ghost rank': Rank)
    requires WellFormed(g, rank) && root in rank && ClosedGraph(g, Reach(g, rank, root))
    ensures WellFormed(g', rank') && Shaped(g') && 0 in rank' && |g'| > 0
    ensures forall st, p {:trigger Run(g', rank', 0, st, p)} :: Run(g', rank', 0, st, p) == Run(g, rank, root, st, p)
    ensures ClosedGraph(g', Reach(g', rank', 0))
    ensures Total(Weights(g')) <= Total(Weights(g)) && (SteadyGraph(g) ==> SteadyGraph(g'))
  {
    var nb := new Numberer(g, rank);
    nb.NumberBlocks(root);
    var id, blocks := nb.id, nb.blocks;
    forall k | 0 <= k < |blocks| ensures blocks[k] < |g| && blocks[k] in rank && blocks[k] in Reach(g, rank, root) {
      ElemsIn(blocks, blocks[k]);
      ReachRanked(g, rank, root, blocks[k]);
    }
    g', rank' := Renamed(g, id, blocks), RankById(rank, blocks);
    RenamedWf(g, rank, id, blocks);
    assert NumberOk(id, blocks, root);
    forall st, p ensures Run(g', rank', 0, st, p) == Run(g, rank, root, st, p) {
      RenamedRun(g, rank, id, blocks, 0, st, p);
    }
    forall i, j | 0 <= i < j < |blocks| ensures blocks[i] != blocks[j] {
      assert BlockOk(id, blocks, i) && BlockOk(id, blocks, j);
    }
    PickedTotal(Weights(g), blocks, Weights(g'));
    forall k | 0 <= k < |g'| ensures g'[k].stmts == g[blocks[k]].stmts {
    }
    forall b | b in Reach(g', rank', 0) && b < |g'| ensures ClosedBlock(g'[b]) {
      assert ClosedBlock(g[blocks[b]]);
    }
  }
}
