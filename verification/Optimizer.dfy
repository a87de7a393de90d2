/** Optimizing passes one after the other, each on facts computed afresh for the graph it
    is given, and the compiler with them in between. */
module Optimizer {
  import opened Bpf
  import opened Flow
  import opened Constancy
  import opened Layout
  import opened Dag
  import opened Levels
  import opened Sweep
  import opened PathFacts
  import opened Values
  import opened Numbering
  import opened Runs
  import opened ValueSweep
  import opened Rewriting
  import opened Traces
  import opened Sizes
  import opened Liveness
  import opened DeadStores
  import JumpThread
  import Interning
  import Pullup
  import Language
  import Compiler
  import Renumber

  /** A graph whose pointers do not lead astray, */
  ghost predicate Sane(g: Graph, rank: Rank, root: nat) {
    WellFormed(g, rank) && root in rank && root < |g| && Interning.Shaped(g)
  }

  /** and one whose reachable blocks, moreover, are closed. */
  ghost predicate Ready(g: Graph, rank: Rank, root: nat) {
    Sane(g, rank, root) && ClosedGraph(g, Reach(g, rank, root))
  }

  /** Runs that do not abort keep their verdict. */
  ghost predicate Keeps(g: Graph, rank: Rank, g': Graph, rank': Rank, root: nat) {
    && WellFormed(g, rank) && WellFormed(g', rank') && root in rank && root in rank'
    && forall st, p {:trigger Run(g', rank', root, st, p)} ::
         Run(g, rank, root, st, p).Some? ==> Run(g', rank', root, st, p) == Run(g, rank, root, st, p)
  }

  lemma KeepsTrans(g0: Graph, r0: Rank, g1: Graph, r1: Rank, g2: Graph, r2: Rank, root: nat)
    requires Keeps(g0, r0, g1, r1, root) && Keeps(g1, r1, g2, r2, root)
    ensures Keeps(g0, r0, g2, r2, root)
  {
    forall st, p | Run(g0, r0, root, st, p).Some? ensures Run(g2, r2, root, st, p) == Run(g0, r0, root, st, p) {
      assert Run(g1, r1, root, st, p) == Run(g0, r0, root, st, p);
    }
  }

  /** Reachable blocks and their statements have not become more. */
  ghost predicate Within(g: Graph, rank: Rank, g': Graph, rank': Rank, root: nat) {
    && WellFormed(g, rank) && WellFormed(g', rank') && root in rank && root in rank'
    && NoLarger(g, Reach(g, rank, root), g', Reach(g', rank', root))
  }

  lemma WithinTrans(g0: Graph, r0: Rank, g1: Graph, r1: Rank, g2: Graph, r2: Rank, root: nat)
    requires Within(g0, r0, g1, r1, root) && Within(g1, r1, g2, r2, root)
    ensures Within(g0, r0, g2, r2, root)
  {
    NoLargerTrans(g0, Reach(g0, r0, root), g1, Reach(g1, r1, root), g2, Reach(g2, r2, root));
  }

  // ----- the tables

  /** Room for three numbers a statement and three a block. */
  function TableSize(g: Graph): nat {
    3 * Total(seq(|g|, b requires 0 <= b < |g| => SLength(g[b].stmts) + 1))
  }

  /** The table is not empty and has room for every number a pass over `R` hands out. */
  ghost predicate Roomy(maxval: nat, g: Graph, rank: Rank, root: nat) {
    WellFormed(g, rank) && root in rank && 0 < maxval && MaxVal(g, Reach(g, rank, root)) <= maxval
  }

  lemma TableSizeEnough(g: Graph, rank: Rank, root: nat)
    requires WellFormed(g, rank) && root in rank && root < |g|
    ensures Roomy(TableSize(g), g, rank, root)
  {
    var R := Reach(g, rank, root);
    TotalLeq(seq(|g|, b requires 0 <= b < |g| => if b in R then SLength(g[b].stmts) + 1 else 0),
             seq(|g|, b requires 0 <= b < |g| => SLength(g[b].stmts) + 1));
    TotalSome(seq(|g|, b requires 0 <= b < |g| => SLength(g[b].stmts) + 1), root);
  }

  /** Tables sized once serve all later graphs too. */
  lemma StillRoomy(maxval: nat, g: Graph, rank: Rank, g': Graph, rank': Rank, root: nat)
    requires Roomy(maxval, g, rank, root) && Within(g, rank, g', rank', root)
    ensures Roomy(maxval, g', rank', root)
  {
    MaxValShrinks(g, Reach(g, rank, root), g', Reach(g', rank', root));
  }

  // ----- value numbering

  /** What a value-numbering pass has found out: the expressions numbered, the state of the blocks, and,
      if it stopped, which blocks had been dealt with and where. */
  datatype Trail = Trail(nodes: seq<VNode>, pass: Pass, seen: set<nat>, stop: Stop)

  /** Value numbering without rewriting. Of closed blocks the numbers are true. */
  method NumberValues(g: Graph, ghost rank: Rank, root: nat, level: seq<nat>, levels: Rows, maxval: nat,
                      hash: VNode -> nat)
    returns (val: seq<Vals>, oval: seq<nat>, inEdges: seq<seq<nat>>, ghost w: Trail)
    requires LevelsOf(g, rank, root, level, levels) && Roomy(maxval, g, rank, root)
    ensures Exited(g, w.nodes, val, oval, Reach(g, rank, root)) && InEdges(g, Reach(g, rank, root), inEdges)
    ensures NumbersTrue(g, rank, root, w) && w.pass.val == val
  {
    var t := new ValTable(hash, maxval);
    var bv := new BlockValues(g, rank, level, levels, t);
    var ok;
    ghost var seen;
    ok, seen := bv.OptBlks(root, false);
    DoneExited(g, t.nodes, bv.State(), Reach(g, rank, root));
    val, oval, inEdges, w := bv.val, bv.oval, bv.inEdges, Trail(t.nodes, bv.State(), seen, bv.stop);
    if ClosedGraph(g, Reach(g, rank, root)) {
      ClosedTrue(g, rank, root, w.nodes, w.pass);
    }
  }

  /** Every reachable block has been executed, equal numbers are those of equal expressions,
      and of closed blocks every run leaves the values the numbers stand for. */
  ghost predicate NumbersTrue(g: Graph, rank: Rank, root: nat, w: Trail) {
    && WellFormed(g, rank) && root in rank && Distinct(w.nodes)
    && Going(g, rank, root, w.nodes, w.pass, false, Reach(g, rank, root))
    && (ClosedGraph(g, Reach(g, rank, root)) ==> AllRun(g, rank, root, w.nodes, w.pass, Reach(g, rank, root)))
  }

  // ----- jump threading

  /** Threading has been done, with these facts and live sets, and no edge dominator moves
      any edge further. */
  ghost predicate FullyThreaded(g: Graph, rank: Rank, root: nat, g': Graph, F: JumpThread.Facts,
                                outUse: seq<set<nat>>) {
    && F.g == g && F.rank == rank && F.root == root && JumpThread.Threaded(F, g') &&
      JumpThread.EverySettled(F, g', outUse)
    && |outUse| == |g| && WellFormed(g, rank) && root in rank
    && forall b {:trigger outUse[b]} ::
      b in Reach(g, rank, root) && b in rank && b < |g| ==> outUse[b] == LiveOut(g, rank, b)
  }

  /** Levels, edge dominators, value numbers and liveness, then the sweep. */
  method ThreadJumps(g: Graph, ghost rank: Rank, root: nat, maxval: nat, hash: VNode -> nat)
    returns (g': Graph, ghost rank': Rank, ghost F: JumpThread.Facts, ghost outUse: seq<set<nat>>)
    requires Ready(g, rank, root) && Roomy(maxval, g, rank, root)
    ensures Ready(g', rank', root) && Keeps(g, rank, g', rank', root) && Within(g, rank, g', rank', root)
    ensures FullyThreaded(g, rank, root, g', F, outUse) && SameCode(g, g') && rank' == JumpThread.HeightRank(F)
  {
    ghost var R := Reach(g, rank, root);
    var lv := new Leveler(g, rank);
    lv.FindLevels(root);
    var level, levels := lv.level, lv.levels;
    var pf := new PathFinder(g, rank, level, levels);
    pf.FindEdom(root);
    var val, oval, inEdges, w := NumberValues(g, rank, root, level, levels, maxval, hash);
    var ls := new LiveSets(g, rank, level, levels);
    ls.FindUd(root);
    forall b | b in R && b in rank && b < |g| ensures ls.outUse[b] == LiveOut(g, rank, b) {
      assert ls.Finished(b);
    }
    F, outUse := JumpThread.Facts(g, rank, root, w.nodes, val, oval, pf.edom), ls.outUse;
    JumpThread.StartThreaded(F);
    var th := new JumpThread.Threader(g, F, val, oval, pf.edom, ls.outUse, level, levels);
    th.Sweep(root);
    g', rank' := th.g, JumpThread.HeightRank(F);
    ThreadedReady(F, g');
    ThreadedWithin(F, g');
  }

  lemma ThreadedShaped(F: JumpThread.Facts, g: Graph)
    requires JumpThread.Threaded(F, g) && Interning.Shaped(F.g)
    ensures Interning.Shaped(g)
  {
    forall b | 0 <= b < |g|
      ensures -1 <= g[b].jt < |g| && -1 <= g[b].jf < |g| && (g[b].jt == -1 <==> g[b].jf == -1) {
      assert JumpThread.SameBut(F.g[b], g[b]) && F.g[b] == F.g[b];
      if b in JumpThread.Reachable(F) && !F.g[b].Leaf() {
        assert JumpThread.Edge(F, b) && JumpThread.Edge(F, |F.g| + b);
        assert Succ(g, b) == g[b].jt && Succ(g, |g| + b) == g[b].jf;
      }
    }
  }

  lemma ThreadedReady(F: JumpThread.Facts, g: Graph)
    requires JumpThread.Threaded(F, g) && Interning.Shaped(F.g)
    ensures Ready(g, JumpThread.HeightRank(F), F.root)
    ensures Keeps(F.g, F.rank, g, JumpThread.HeightRank(F), F.root)
  {
    var hr := JumpThread.HeightRank(F);
    JumpThread.ThreadedWf(F, g);
    JumpThread.ThreadedClosed(F, g, F.root);
    ThreadedShaped(F, g);
    forall st, p | Run(F.g, F.rank, F.root, st, p).Some?
      ensures Run(g, hr, F.root, st, p) == Run(F.g, F.rank, F.root, st, p) {
      JumpThread.ThreadedVerdict(F, g, st, p);
    }
  }

  lemma ThreadedWithin(F: JumpThread.Facts, g: Graph)
    requires JumpThread.Threaded(F, g)
    ensures Within(F.g, F.rank, g, JumpThread.HeightRank(F), F.root) && SameCode(F.g, g)
  {
    var hr := JumpThread.HeightRank(F);
    JumpThread.ThreadedWf(F, g);
    forall x | x in Reach(g, hr, F.root) ensures x in JumpThread.Reachable(F) {
      ReachRanked(g, hr, F.root, x);
    }
    assert SameCode(F.g, g) by {
      forall b | 0 <= b < |g| ensures g[b].stmts == F.g[b].stmts && g[b].s == F.g[b].s {
        assert JumpThread.SameBut(F.g[b], g[b]);
      }
    }
    SameCodeNoLarger(F.g, JumpThread.Reachable(F), g, Reach(g, hr, F.root));
  }

  // ----- rewriting statements

  /** The pass came to a statement that divides a constant by the constant 0. */
  ghost predicate StoppedBy(g: Graph, rank: Rank, root: nat, w: Trail) {
    && WellFormed(g, rank) && root in rank
    && w.seen <= Reach(g, rank, root) && StoppedAt(g, rank, root, w.pass, w.seen, w.stop)
  }

  /** Levels, in-edges and one pass of rewriting. It fails only at a division of a constant
      by the constant 0; otherwise every reachable block has been rewritten, and if no
      block reads an atom of unknown number and no fold disagrees with the machine, runs
      that do not abort keep their verdict. */
  method RewriteStatements(g: Graph, ghost rank: Rank, root: nat, maxval: nat, hash: VNode -> nat)
    returns (ok: bool, g': Graph, ghost w: Trail)
    requires Sane(g, rank, root) && Roomy(maxval, g, rank, root)
    ensures !ok ==> StoppedBy(g, rank, root, w)
    ensures ok ==> Finished(g, rank, root, w.nodes, w.pass) && g' == w.pass.out
    ensures ok ==> Sane(g', rank, root) && Within(g, rank, g', rank, root)
    ensures ok && AllAgree(g, rank, root, w.nodes, w.pass) ==> Keeps(g, rank, g', rank, root)
  {
    var lv := new Leveler(g, rank);
    lv.FindLevels(root);
    var t := new ValTable(hash, maxval);
    var bv := new BlockValues(g, rank, lv.level, lv.levels, t);
    ghost var seen;
    ok, seen := bv.OptBlks(root, true);
    g', w := bv.out, Trail(t.nodes, bv.State(), seen, bv.stop);
    if ok {
      RewrittenSane(g, rank, root, w.nodes, w.pass);
      if AllAgree(g, rank, root, w.nodes, w.pass) {
        RewrittenKeeps(g, rank, root, w.nodes, w.pass);
      }
    }
  }

  lemma RewrittenKeeps(g: Graph, rank: Rank, root: nat, nodes: seq<VNode>, P: Pass)
    requires Finished(g, rank, root, nodes, P) && AllAgree(g, rank, root, nodes, P)
    ensures Keeps(g, rank, P.out, rank, root)
  {
    RewrittenWf(g, rank, root, nodes, P);
    forall st, p | Run(g, rank, root, st, p).Some? ensures Run(P.out, rank, root, st, p) == Run(g, rank, root, st, p) {
      RewrittenVerdict(g, rank, root, nodes, P, st, p);
    }
  }

  lemma RewrittenSane(g: Graph, rank: Rank, root: nat, nodes: seq<VNode>, P: Pass)
    requires Finished(g, rank, root, nodes, P) && Interning.Shaped(g)
    ensures Sane(P.out, rank, root) && Within(g, rank, P.out, rank, root)
  {
    RewrittenWf(g, rank, root, nodes, P);
    forall b | 0 <= b < |g|
      ensures P.out[b] == g[b].(stmts := P.out[b].stmts) && |P.out[b].stmts| == |g[b].stmts|
      ensures SLength(P.out[b].stmts) <= SLength(g[b].stmts) {
      RewrittenBlock(g, rank, root, nodes, P, b);
    }
    SameEdges(g, P.out, rank, root);
    forall b | 0 <= b < |P.out|
      ensures -1 <= P.out[b].jt < |P.out| && -1 <= P.out[b].jf < |P.out| && (P.out[b].jt == -1 <==> P.out[b].jf == -1) {
      assert g[b] == g[b];
    }
  }

  lemma SameEdges(g: Graph, g': Graph, rank: Rank, root: nat)
    requires WellFormed(g, rank) && WellFormed(g', rank) && root in rank && |g'| == |g|
    requires forall b {:trigger g'[b]} :: 0 <= b < |g| ==> g'[b] == g[b].(stmts := g'[b].stmts)
    ensures Reach(g', rank, root) <= Reach(g, rank, root)
  {
    var R := Reach(g, rank, root);
    forall x | x in R && x in rank && x < |g'| && !g'[x].Leaf() ensures g'[x].jt in R && g'[x].jf in R {
      ReachSuccs(g, rank, root, x);
    }
    assert root in R by { assert NodeOk(g, rank, root); }
    ReachWithin(g', rank, root, R);
  }

  // ----- dead stores

  /** Levels and liveness, then every block's unwanted writes. */
  method RemoveDeadStores(g: Graph, ghost rank: Rank, root: nat) returns (g': Graph)
    requires Sane(g, rank, root)
    ensures Sane(g', rank, root) && Keeps(g, rank, g', rank, root) && Within(g, rank, g', rank, root)
    ensures GraphThinned(g, g', rank, Reach(g, rank, root))
  {
    var lv := new Leveler(g, rank);
    lv.FindLevels(root);
    var ls := new LiveSets(g, rank, lv.level, lv.levels);
    ls.FindUd(root);
    forall b | b in Reach(g, rank, root) && b in rank && b < |g| ensures ls.outUse[b] == LiveOut(g, rank, b) {
      assert ls.Finished(b);
    }
    var pass := new DeadStorePass(g, rank, lv.level, lv.levels, ls.outUse);
    pass.OptAll(root);
    g' := pass.g;
    ThinnedSane(g, g', rank, root);
    forall st, p | Run(g, rank, root, st, p).Some? ensures Run(g', rank, root, st, p) == Run(g, rank, root, st, p) {
      DeadStoresVerdict(g, g', rank, root, st, p);
    }
  }

  lemma ThinnedBlock(g: Graph, g': Graph, rank: Rank, S: set<nat>, b: nat)
    requires GraphThinned(g, g', rank, S) && b < |g|
    ensures g'[b] == g[b].(stmts := g'[b].stmts) && Thinned(g[b].stmts, g'[b].stmts)
  {
    assert b in S ==> ThinnedAt(g, g', rank, b);
  }

  lemma ThinnedSane(g: Graph, g': Graph, rank: Rank, root: nat)
    requires Sane(g, rank, root) && GraphThinned(g, g', rank, Reach(g, rank, root))
    ensures Sane(g', rank, root) && Within(g, rank, g', rank, root)
  {
    var R := Reach(g, rank, root);
    ThinnedWf(g, g', rank, R);
    forall b | 0 <= b < |g|
      ensures g'[b] == g[b].(stmts := g'[b].stmts) && |g'[b].stmts| == |g[b].stmts|
      ensures SLength(g'[b].stmts) <= SLength(g[b].stmts) {
      ThinnedBlock(g, g', rank, R, b);
      SLengthLeq(g[b].stmts, g'[b].stmts);
    }
    SameEdges(g, g', rank, root);
    forall b | 0 <= b < |g'|
      ensures -1 <= g'[b].jt < |g'| && -1 <= g'[b].jf < |g'| && (g'[b].jt == -1 <==> g'[b].jf == -1) {
      assert g[b] == g[b];
    }
  }

  /** Deleting statements adds no division by the constant 0. */
  lemma ThinnedZeroFree(g: Graph, g': Graph, rank: Rank, S: set<nat>)
    requires GraphThinned(g, g', rank, S) && ZeroFree(g, S)
    ensures ZeroFree(g', S)
  {
    forall b, k | b in S && b < |g'| && 0 <= k < |g'[b].stmts|
      ensures !ZeroDivision(g'[b].stmts[k].code, g'[b].stmts[k].k) {
      ThinnedBlock(g, g', rank, S, b);
      assert !ZeroDivision(g[b].stmts[k].code, g[b].stmts[k].k);
    }
  }

  // ----- the passes in a row

  /** What the passes have made on the way: the threaded graph, with the facts and live sets
      it was threaded by; what rewriting found, with the rewritten graph in `w.pass.out`;
      that graph without its dead stores; and which block each of its blocks was merged
      into. */
  datatype History = History(g1: Graph, r1: Rank, F: JumpThread.Facts, outUse: seq<set<nat>>, w: Trail, g3: Graph,
                             rep: seq<int>)

  /** Jumps have been threaded as far as they go, */
  ghost predicate FirstStage(g: Graph, rank: Rank, root: nat, h: History) {
    && FullyThreaded(g, rank, root, h.g1, h.F, h.outUse) && h.r1 == JumpThread.HeightRank(h.F)
    && Ready(h.g1, h.r1, root) && SameCode(g, h.g1)
  }

  /** then every reachable block rewritten, then exactly the dead stores deleted, and then
      all blocks that do the same merged. */
  ghost predicate LaterStages(root: nat, h: History, g': Graph, rank': Rank) {
    && Finished(h.g1, h.r1, root, h.w.nodes, h.w.pass)
    && Sane(h.w.pass.out, h.r1, root) && Sane(h.g3, h.r1, root)
    && GraphThinned(h.w.pass.out, h.g3, h.r1, Reach(h.w.pass.out, h.r1, root))
    && WellFormed(g', rank') && root in rank'
    && Interning.FullyMerged(h.g3, Reach(h.g3, h.r1, root), g', Reach(g', rank', root), h.rep)
  }

  /** Threads jumps, rewrites statements, removes dead stores and merges equal blocks. */
  method Optimize(g: Graph, ghost rank: Rank, root: nat, hash: VNode -> nat)
    returns (ok: bool, g': Graph, ghost rank': Rank, ghost h: History)
    requires Ready(g, rank, root)
    ensures FirstStage(g, rank, root, h) && Keeps(g, rank, h.g1, h.r1, root)
    ensures !ok ==> StoppedBy(h.g1, h.r1, root, h.w)
    ensures ok ==> LaterStages(root, h, g', rank')
    ensures ok ==> |g'| == |g| && Interning.Shaped(g')
    ensures ok ==> Within(g, rank, g', rank', root) && Interning.AllDifferent(g', Reach(g', rank', root))
    ensures ok && FoldsAgree(h.g1, h.w.nodes, h.w.pass, Reach(h.g1, h.r1, root)) ==> Keeps(g, rank, g', rank', root)
    ensures ok && NoZeroDivisor(h.g1, h.w.nodes, h.w.pass, Reach(h.g1, h.r1, root)) ==>
      ZeroFree(g', Reach(g', rank', root))
  {
    var maxval := TableSize(g);
    TableSizeEnough(g, rank, root);
    ghost var F, outUse, w, r1;
    var h1;
    h1, r1, F, outUse := ThreadJumps(g, rank, root, maxval, hash);
    StillRoomy(maxval, g, rank, h1, r1, root);
    var h2;
    ok, h2, w := RewriteStatements(h1, r1, root, maxval, hash);
    g', rank', h := h2, r1, History(h1, r1, F, outUse, w, h2, []);
    if !ok {
      return;
    }
    var h3 := RemoveDeadStores(h2, r1, root);
    var pass := new Interning.Interner(h3, r1);
    ghost var rep := pass.InternBlocks(root);
    g', rank', h := pass.g, pass.rank, h.(g3 := h3, rep := rep);
    SameCodeNoLarger(h3, Reach(h3, r1, root), g', Reach(g', rank', root));
    AllWithin(g, rank, h1, r1, h2, h3, g', rank', root);
    if FoldsAgree(h1, w.nodes, w.pass, Reach(h1, r1, root)) {
      ClosedAgree(h1, w.nodes, w.pass, Reach(h1, r1, root));
      AllKeep(g, rank, h1, r1, h2, h3, g', rank', root);
    }
    if NoZeroDivisor(h1, w.nodes, w.pass, Reach(h1, r1, root)) {
      StillZeroFree(h1, r1, root, w, h3, g', rank');
    }
  }

  lemma AllWithin(g: Graph, rank: Rank, h1: Graph, r1: Rank, h2: Graph, h3: Graph, g': Graph, rank': Rank, root: nat)
    requires Within(g, rank, h1, r1, root) && Within(h1, r1, h2, r1, root) && Within(h2, r1, h3, r1, root)
    requires Within(h3, r1, g', rank', root)
    ensures Within(g, rank, g', rank', root)
  {
    WithinTrans(g, rank, h1, r1, h2, r1, root);
    WithinTrans(g, rank, h2, r1, h3, r1, root);
    WithinTrans(g, rank, h3, r1, g', rank', root);
  }

  lemma AllKeep(g: Graph, rank: Rank, h1: Graph, r1: Rank, h2: Graph, h3: Graph, g': Graph, rank': Rank, root: nat)
    requires Keeps(g, rank, h1, r1, root) && Keeps(h1, r1, h2, r1, root) && Keeps(h2, r1, h3, r1, root)
    requires Keeps(h3, r1, g', rank', root)
    ensures Keeps(g, rank, g', rank', root)
  {
    KeepsTrans(g, rank, h1, r1, h2, r1, root);
    KeepsTrans(g, rank, h2, r1, h3, r1, root);
    KeepsTrans(g, rank, h3, r1, g', rank', root);
  }

  lemma StillZeroFree(h1: Graph, r1: Rank, root: nat, w: Trail, h3: Graph, g': Graph, rank': Rank)
    requires Finished(h1, r1, root, w.nodes, w.pass) && NoZeroDivisor(h1, w.nodes, w.pass, Reach(h1, r1, root))
    requires Within(h1, r1, w.pass.out, r1, root) && GraphThinned(w.pass.out, h3, r1, Reach(w.pass.out, r1, root))
    requires SameCode(h3, g') && WellFormed(h3, r1) && WellFormed(g', rank') && root in rank'
    requires Reach(g', rank', root) <= Reach(h3, r1, root) <= Reach(w.pass.out, r1, root)
    ensures ZeroFree(g', Reach(g', rank', root))
  {
    RewrittenZeroFree(h1, r1, root, w.nodes, w.pass);
    ThinnedZeroFree(w.pass.out, h3, r1, Reach(w.pass.out, r1, root));
    forall b, k | b in Reach(g', rank', root) && b < |g'| && 0 <= k < |g'[b].stmts|
      ensures !ZeroDivision(g'[b].stmts[k].code, g'[b].stmts[k].k) {
      assert g'[b].stmts == h3[b].stmts;
      assert !ZeroDivision(h3[b].stmts[k].code, h3[b].stmts[k].k);
    }
  }

  // ----- reordering tests

  /** One attempt to pull a test up, on dominators, in-edges and values computed for this
      graph. A test is moved exactly when the pattern is there. A verdict is then kept
      exactly when the pulled test does not abort or the run does not come to where it has
      been moved. */
  method PullTest(g: Graph, ghost rank: Rank, root: nat, b: nat, or: bool, maxval: nat, hash: VNode -> nat)
    returns (moved: bool, g': Graph, ghost rank': Rank, ghost mv: Pullup.Move, ghost sv: Pullup.Survey, ghost w: Trail)
    requires Ready(g, rank, root) && Roomy(maxval, g, rank, root)
    requires b < |g| && b in Reach(g, rank, root) && b in rank && !g[b].Leaf()
    ensures Surveyed(g, rank, root, sv, w) && PullTried(g, rank, root, sv, b, or, moved, g', mv)
    ensures Ready(g', rank', root) && Within(g, rank, g', rank', root)
    ensures moved ==> forall st, p {:trigger Run(g', rank', root, st, p)} ::
      Pullup.Kept(Run(g, rank, root, st, p), Run(g', rank', root, st, p)) <==>
        PullHarmless(g, rank, root, mv, p) || Run(g, rank, root, st, p) == None
    ensures moved ==> forall st, p {:trigger Run(g', rank', root, st, p)} ::
      !PullHarmless(g, rank, root, mv, p) ==> Run(g', rank', root, st, p) == None
  {
    var val, dom, inEdges;
    val, dom, inEdges, w := FreshFacts(g, rank, root, maxval, hash);
    sv := Pullup.Survey(val, dom, inEdges);
    moved, g', mv := TryPull(g, rank, root, b, or, val, dom, inEdges, w);
    rank' := rank;
    if moved {
      rank' := PulledUp(g, g', rank, root, mv);
    } else {
      SameCodeNoLarger(g, Reach(g, rank, root), g', Reach(g, rank, root));
    }
  }

  /** A test has been moved exactly if all predecessors of `b` leave one number and the chain
      from `b` has the pattern; otherwise nothing has changed. */
  ghost predicate PullTried(g: Graph, rank: Rank, root: nat, sv: Pullup.Survey, b: nat, or: bool, moved: bool,
                            g': Graph, mv: Pullup.Move)
    requires WellFormed(g, rank) && root in rank && sv.Sized(|g|) && b < |g|
  {
    if moved then
      && Pullup.Moved(g, g', Reach(g, rank, root), mv) && Pullup.OnlyPointers(g, g', Reach(g, rank, root))
      && exists v {:trigger Pullup.AllLeave(g, sv, b, v)} ::
           Pullup.AllLeave(g, sv, b, v) && Pullup.Pullable(g, rank, root, sv, b, or, v, mv.c, mv.j)
    else
      && g' == g
      && forall v {:trigger Pullup.AllLeave(g, sv, b, v)} ::
           Pullup.AllLeave(g, sv, b, v) ==> Pullup.NonePullable(g, rank, root, sv, b, or, v)
  }

  method TryPull(g: Graph, ghost rank: Rank, root: nat, b: nat, or: bool,
                 val: seq<Vals>, dom: seq<set<nat>>, inEdges: seq<seq<nat>>, ghost w: Trail)
    returns (moved: bool, g': Graph, ghost mv: Pullup.Move)
    requires Ready(g, rank, root) && Surveyed(g, rank, root, Pullup.Survey(val, dom, inEdges), w)
    requires b < |g| && b in Reach(g, rank, root) && b in rank && !g[b].Leaf()
    ensures PullTried(g, rank, root, Pullup.Survey(val, dom, inEdges), b, or, moved, g', mv)
    ensures moved ==> Pullup.Movable(g, rank, Reach(g, rank, root), mv)
    ensures moved ==> forall i {:trigger mv.c[i]} :: 0 <= i < |mv.c| ==> mv.c[i] != root
  {
    var puller := new Pullup.Puller(g, rank, val, dom, inEdges);
    moved, mv := puller.Pull(root, b, or);
    g' := puller.g;
    ghost var sv := Pullup.Survey(val, dom, inEdges);
    assert puller.Facts() == sv;
    if !moved {
      forall v | Pullup.AllLeave(g, sv, b, v) ensures Pullup.NonePullable(g, rank, root, sv, b, or, v) {
        assert Pullup.AllLeave(puller.g, puller.Facts(), b, v);
      }
    }
  }

  /** The pulled test does not abort on the packet, or control does not come to the place it
      is pulled to. */
  ghost predicate PullHarmless(g: Graph, rank: Rank, root: nat, mv: Pullup.Move, p: Packet)
    requires WellFormed(g, rank) && root in rank
  {
    && mv.Ok() && mv.Pull() < |g|
    && (Goes(g[mv.Pull()], p).Some? || !OnTrace(g, rank, root, mv.Top(), p))
  }

  /** Dominators, in-edges and numbers are those of the graph. */
  ghost predicate Surveyed(g: Graph, rank: Rank, root: nat, sv: Pullup.Survey, w: Trail) {
    && WellFormed(g, rank) && root in rank && sv.Sized(|g|)
    && Visited(BlockNet(g, rank, root), Reach(g, rank, root), sv.dom, true) &&
      InEdges(g, Reach(g, rank, root), sv.inEdges)
    && NumbersTrue(g, rank, root, w) && w.pass.val == sv.val
  }

  /** Values, dominators and in-edges of a graph. */
  method FreshFacts(g: Graph, ghost rank: Rank, root: nat, maxval: nat, hash: VNode -> nat)
    returns (val: seq<Vals>, dom: seq<set<nat>>, inEdges: seq<seq<nat>>, ghost w: Trail)
    requires Ready(g, rank, root) && Roomy(maxval, g, rank, root)
    ensures Surveyed(g, rank, root, Pullup.Survey(val, dom, inEdges), w)
  {
    var lv := new Leveler(g, rank);
    lv.FindLevels(root);
    var pf := new PathFinder(g, rank, lv.level, lv.levels);
    pf.FindDom(root);
    dom := pf.dom;
    var oval;
    val, oval, inEdges, w := NumberValues(g, rank, root, lv.level, lv.levels, maxval, hash);
  }

  lemma PulledUp(g: Graph, g': Graph, rank: Rank, root: nat, mv: Pullup.Move) returns (rank': Rank)
    requires Ready(g, rank, root) && Pullup.Movable(g, rank, Reach(g, rank, root), mv)
    requires Pullup.Moved(g, g', Reach(g, rank, root), mv) && Pullup.OnlyPointers(g, g', Reach(g, rank, root))
    requires forall i {:trigger mv.c[i]} :: 0 <= i < |mv.c| ==> mv.c[i] != root
    ensures Ready(g', rank', root) && Within(g, rank, g', rank', root)
    ensures forall st, p {:trigger Run(g', rank', root, st, p)} ::
      Pullup.Kept(Run(g, rank, root, st, p), Run(g', rank', root, st, p)) <==>
        PullHarmless(g, rank, root, mv, p) || Run(g, rank, root, st, p) == None
    ensures forall st, p {:trigger Run(g', rank', root, st, p)} ::
      !PullHarmless(g, rank, root, mv, p) ==> Run(g', rank', root, st, p) == None
  {
    var R := Reach(g, rank, root);
    Pullup.MovedWf(g, g', rank, R, mv);
    rank' := Pullup.NewRank(rank, R, mv);
    assert root in R by { assert NodeOk(g, rank, root); }
    PulledReady(g, g', rank, root, mv);
    assert Pullup.OffMoved(mv, root);
    forall st, p
      ensures Pullup.Kept(Run(g, rank, root, st, p), Run(g', rank', root, st, p)) <==>
        PullHarmless(g, rank, root, mv, p) || Run(g, rank, root, st, p) == None
      ensures !PullHarmless(g, rank, root, mv, p) ==> Run(g', rank', root, st, p) == None {
      Pullup.MovedExact(g, g', rank, R, mv, root, st, p);
    }
  }

  lemma PulledReady(g: Graph, g': Graph, rank: Rank, root: nat, mv: Pullup.Move)
    requires Ready(g, rank, root) && Pullup.Movable(g, rank, Reach(g, rank, root), mv) && mv.Top() in rank
    requires Pullup.Moved(g, g', Reach(g, rank, root), mv) && Pullup.OnlyPointers(g, g', Reach(g, rank, root))
    requires WellFormed(g', Pullup.NewRank(rank, Reach(g, rank, root), mv)) && root in Reach(g, rank, root)
    ensures Ready(g', Pullup.NewRank(rank, Reach(g, rank, root), mv), root)
    ensures Within(g, rank, g', Pullup.NewRank(rank, Reach(g, rank, root), mv), root)
  {
    var R, nr := Reach(g, rank, root), Pullup.NewRank(rank, Reach(g, rank, root), mv);
    forall x | x in Reach(g', nr, root) ensures x in R {
      ReachRanked(g', nr, root, x);
    }
    SameCodeNoLarger(g, R, g', Reach(g', nr, root));
    forall b | b in Reach(g', nr, root) && b < |g'| ensures ClosedBlock(g'[b]) {
      assert ClosedBlock(g[b]) && g'[b].stmts == g[b].stmts && g'[b].s == g[b].s;
    }
    forall b | 0 <= b < |g'|
      ensures -1 <= g'[b].jt < |g'| && -1 <= g'[b].jf < |g'| && (g'[b].jt == -1 <==> g'[b].jf == -1) {
      if b in R {
        ReachRanked(g, rank, root, b);
        assert NodeOk(g', nr, b);
      } else {
        assert g'[b] == g[b];
      }
    }
  }

  // ----- the optimizing compiler

  /** On every packet on which the filter has an answer, the graph gives it. */
  ghost predicate Answers(g: Graph, rank: Rank, f: Language.Filter, snaplen: Word) {
    && WellFormed(g, rank) && 0 in rank
    && forall st, p {:trigger Run(g, rank, 0, st, p)} ::
         Compiler.Answer(Some(f), snaplen, p).Some? ==> Run(g, rank, 0, st, p) == Compiler.Answer(Some(f), snaplen, p)
  }

  /** Compiles a filter with the passes between the generator and the linearizer. Graph
      `g0`, which answers as the filter does, goes through all of them; `g'` comes out and
      is laid out. It and the program still answer as the filter does if no fold disagreed
      with the machine. The kernel accepts the program if nothing was divided by what
      rewriting knew to be 0. A steady filter, which may divide and shift what it reads
      from the packet, meets both conditions. */
  method CompileOptimized(f: Language.Filter, snaplen: Word, hash: VNode -> nat)
    returns (r: Compiler.Compiled, ghost g0: Graph, ghost r0: Rank, ghost h: History, ghost g': Graph,
             ghost rank': Rank)
    requires Language.Expressible(f, Language.ETHERNET)
    ensures r.Refused? <==> snaplen == 0 || !Language.Generable(f, Language.ETHERNET, 16)
    ensures r.TooLarge? ==> Compiler.Room(f) + 6 >= WORD_LIMIT
    ensures !r.Refused? ==> Ready(g0, r0, 0) && Answers(g0, r0, f, snaplen) && FirstStage(g0, r0, 0, h)
    ensures r.DividesByZero? ==> StoppedBy(h.g1, h.r1, 0, h.w) && !Compiler.SteadyFilter(f)
    ensures r.Program? ==> LaterStages(0, h, g', rank') && Interning.AllDifferent(g', Reach(g', rank', 0))
    ensures r.Program? ==> forall st, p {:trigger RunFlat(r.code, 0, st, p)} ::
      RunFlat(r.code, 0, st, p) == Run(g', rank', 0, st, p)
    ensures r.Program? && FoldsAgree(h.g1, h.w.nodes, h.w.pass, Reach(h.g1, h.r1, 0)) ==> Correct(r.code, f, snaplen)
    ensures r.Program? && Compiler.SteadyFilter(f) ==> Correct(r.code, f, snaplen) && Validates(r.code)
    ensures r.Program? && NoZeroDivisor(h.g1, h.w.nodes, h.w.pass, Reach(h.g1, h.r1, 0)) ==> Validates(r.code)
  {
    g0, r0, g', rank' := [], map[], [], map[];
    h := History([], map[], JumpThread.Facts([], map[], 0, [], [], [], []), [],
                 Trail([], Pass([], [], [], [], []), {}, Stop(0, 0, UNKNOWN, [], UNKNOWN, [], [], [])), [], []);
    if snaplen == 0 {
      r := Compiler.Refused;
      return;
    }
    var ok, g, root, rank := Compiler.Generate(f, snaplen);
    if !ok {
      r := Compiler.Refused;
      return;
    }
    var start, out;
    start, r0 := Renumber.Renumbered(g, rank, root);
    g0 := start;
    ok, out, rank', h := Optimize(start, r0, 0, hash);
    g' := out;
    if Compiler.SteadyFilter(f) {
      SteadyOptimized(g0, h.g1, h.r1, ok, h.w);
    }
    if !ok {
      r := Compiler.DividesByZero;
      return;
    }
    r := LayOut(f, snaplen, g0, r0, out, rank');
  }

  /** Lays out the optimized graph `g'` of `g`, which answers as the filter does. */
  method LayOut(f: Language.Filter, snaplen: Word, ghost g: Graph, ghost rank: Rank, g': Graph, ghost rank': Rank)
    returns (r: Compiler.Compiled)
    requires Answers(g, rank, f, snaplen) && Within(g, rank, g', rank', 0)
    requires Total(Weights(g)) <= Compiler.Room(f) + 6
    ensures r.Program? || (r.TooLarge? && Compiler.Room(f) + 6 >= WORD_LIMIT)
    ensures r.Program? ==> forall st, p {:trigger RunFlat(r.code, 0, st, p)} ::
      RunFlat(r.code, 0, st, p) == Run(g', rank', 0, st, p)
    ensures r.Program? ==> (Validates(r.code) <==> ZeroFree(g', Reach(g', rank', 0)))
    ensures r.Program? && Keeps(g, rank, g', rank', 0) ==> Correct(r.code, f, snaplen)
  {
    WeightsKept(g, Reach(g, rank, 0), g', Reach(g', rank', 0));
    r := Compiler.Emitted(g', 0, rank');
    if r.Program? && Keeps(g, rank, g', rank', 0) {
      KeptAnswers(g, rank, g', rank', f, snaplen);
      AnswersCorrect(r.code, g', rank', f, snaplen);
    }
  }

  lemma KeptAnswers(g0: Graph, r0: Rank, g1: Graph, r1: Rank, f: Language.Filter, snaplen: Word)
    requires Keeps(g0, r0, g1, r1, 0) && Answers(g0, r0, f, snaplen)
    ensures Answers(g1, r1, f, snaplen)
  {
    forall st, p | Compiler.Answer(Some(f), snaplen, p).Some?
      ensures Run(g1, r1, 0, st, p) == Compiler.Answer(Some(f), snaplen, p) {
      assert Run(g0, r0, 0, st, p) == Compiler.Answer(Some(f), snaplen, p);
    }
  }

  lemma AnswersCorrect(code: seq<Insn>, g: Graph, rank: Rank, f: Language.Filter, snaplen: Word)
    requires Answers(g, rank, f, snaplen) && forall st, p :: RunFlat(code, 0, st, p) == Run(g, rank, 0, st, p)
    ensures Correct(code, f, snaplen)
  {
    forall st, p | Compiler.Answer(Some(f), snaplen, p).Some?
      ensures RunFlat(code, 0, st, p) == Compiler.Answer(Some(f), snaplen, p) {
      assert RunFlat(code, 0, st, p) == Run(g, rank, 0, st, p);
    }
  }

  /** Whenever the filter has an answer, the program gives it. */
  ghost predicate Correct(code: seq<Insn>, f: Language.Filter, snaplen: Word) {
    forall st, p {:trigger RunFlat(code, 0, st, p)} :: Compiler.Answer(Some(f), snaplen, p).Some? ==>
      RunFlat(code, 0, st, p) == Compiler.Answer(Some(f), snaplen, p)
  }

  lemma SteadyOptimized(g0: Graph, g1: Graph, r1: Rank, ok: bool, w: Trail)
    requires SteadyGraph(g0) && SameCode(g0, g1)
    requires if ok then Finished(g1, r1, 0, w.nodes, w.pass) else StoppedBy(g1, r1, 0, w)
    ensures ok && FoldsAgree(g1, w.nodes, w.pass, Reach(g1, r1, 0)) &&
      NoZeroDivisor(g1, w.nodes, w.pass, Reach(g1, r1, 0))
  {
    SameCodeSteady(g0, g1);
    if ok {
      SteadyAgree(g1, r1, 0, w.nodes, w.pass);
    } else {
      SteadyNeverStops(g1, r1, 0, w.pass, w.seen, w.stop);
    }
  }
}
