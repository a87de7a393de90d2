/** What the value-numbering pass has done to a graph when it was asked to rewrite it. */
module Rewriting {
  import opened Bpf
  import opened Flow
  import opened Layout
  import opened Dag
  import opened Atoms
  import opened Constancy
  import opened Values
  import opened Numbering
  import opened Runs
  import opened ValueSweep
  import opened Sizes
  import opened Liveness
  import Peephole

  /** The pass has run to its end: every reachable block has been dealt with and all others
      are as they were. */
  ghost predicate Finished(g: Graph, rank: Rank, root: nat, nodes: seq<VNode>, P: Pass) {
    && WellFormed(g, rank) && root in rank && root < |g|
    && Going(g, rank, root, nodes, P, true, Reach(g, rank, root))
    && forall b {:trigger P.out[b]} :: 0 <= b < |g| && b !in Reach(g, rank, root) ==> P.out[b] == g[b]
  }

  /** No reachable block reads an atom of unknown number, and no fold disagrees with the
      machine. Both can be read off the numbers the pass has computed. */
  ghost predicate AllAgree(g: Graph, rank: Rank, root: nat, nodes: seq<VNode>, P: Pass)
    requires WellFormed(g, rank) && root in rank
  {
    AllGood(g, nodes, P, true, Reach(g, rank, root))
  }

  lemma RewrittenWf(g: Graph, rank: Rank, root: nat, nodes: seq<VNode>, P: Pass)
    requires Finished(g, rank, root, nodes, P)
    ensures WellFormed(P.out, rank) && |P.out| == |g|
  {
    forall b | 0 <= b < |g| && b in rank ensures NodeOk(P.out, rank, b) {
      assert NodeOk(g, rank, b) && P.out[b] == P.out[b];
      if b in Reach(g, rank, root) {
        assert Done(g, nodes, P.val[b], P.oval[b], P.entry[b], P.traces[b], P.out[b], true, b);
        forall k | 0 <= k < |P.out[b].stmts| ensures Plain(P.out[b].stmts[k]) {
        }
      }
    }
  }

  /** Every run that does not abort has the same verdict in the rewritten graph. */
  lemma {:induction false} RewrittenFrom(g: Graph, rank: Rank, root: nat, nodes: seq<VNode>, P: Pass,
                                         x: nat, st0: Store, st: Store, p: Packet)
    requires WellFormed(g, rank) && WellFormed(P.out, rank) && root in rank && x in rank && x in Reach(g, rank, root)
    requires AllDone(g, nodes, P, true, Reach(g, rank, root)) && AllRun(g, rank, root, nodes, P, Reach(g, rank, root))
    requires Enters(g, rank, root, st0, p, x) == Some(st) && Run(g, rank, x, st, p).Some?
    ensures Run(P.out, rank, x, st, p) == Run(g, rank, x, st, p)
    decreases rank[x]
  {
    assert NodeOk(g, rank, x) && NodeOk(P.out, rank, x);
    assert Done(g, nodes, P.val[x], P.oval[x], P.entry[x], P.traces[x], P.out[x], true, x);
    assert RunFacts(g, rank, root, nodes, P.val[x], P.out[x], x);
    assert Passes(g, rank, root, x, st0, st, p);
    if !g[x].Leaf() {
      var st1 := ExecList(g[x].stmts, st, p).value;
      ReachSuccs(g, rank, root, x);
      EntersStep(g, rank, root, st0, p, x, st);
      RewrittenFrom(g, rank, root, nodes, P, Taken(g, x, st1), st0, st1, p);
    }
  }

  lemma RewrittenVerdict(g: Graph, rank: Rank, root: nat, nodes: seq<VNode>, P: Pass, st: Store, p: Packet)
    requires Finished(g, rank, root, nodes, P) && AllAgree(g, rank, root, nodes, P) && Run(g, rank, root, st, p).Some?
    ensures WellFormed(P.out, rank) && Run(P.out, rank, root, st, p) == Run(g, rank, root, st, p)
  {
    RewrittenWf(g, rank, root, nodes, P);
    assert root in Reach(g, rank, root) by { assert NodeOk(g, rank, root); }
    RewrittenFrom(g, rank, root, nodes, P, root, st, st, p);
  }

  /** No fold disagrees with the machine. */
  ghost predicate FoldsAgree(g: Graph, nodes: seq<VNode>, P: Pass, R: set<nat>) {
    && Sized(P, |g|)
    && forall b {:trigger ListAgrees(nodes, P.traces[b], g[b].stmts)} ::
         b in R && b < |g| ==> ListAgrees(nodes, P.traces[b], g[b].stmts)
  }

  /** Closed blocks read nothing of unknown number. */
  lemma ClosedAgree(g: Graph, nodes: seq<VNode>, P: Pass, R: set<nat>)
    requires ClosedGraph(g, R) && FoldsAgree(g, nodes, P, R)
    ensures AllGood(g, nodes, P, true, R)
  {
    forall b | b in R && b < |g| ensures Good(g, nodes, P.entry[b], P.traces[b], true, b) {
      assert ClosedBlock(g[b]);
      ClosedReads(g[b].stmts, Known(P.entry[b]));
      assert ListAgrees(nodes, P.traces[b], g[b].stmts);
    }
  }

  lemma RewrittenBlock(g: Graph, rank: Rank, root: nat, nodes: seq<VNode>, P: Pass, b: nat)
    requires Finished(g, rank, root, nodes, P) && b < |g|
    ensures |P.out| == |g| && P.out[b] == g[b].(stmts := P.out[b].stmts) && |P.out[b].stmts| == |g[b].stmts|
    ensures SLength(P.out[b].stmts) <= SLength(g[b].stmts)
  {
    if b in Reach(g, rank, root) {
      var ss, ss' := g[b].stmts, P.out[b].stmts;
      assert Done(g, nodes, P.val[b], P.oval[b], P.entry[b], P.traces[b], P.out[b], true, b);
      forall k | 0 <= k < |ss| && ss[k].code.Nop? ensures ss'[k].code.Nop? {
        assert Stepped(nodes, P.traces[b], ss, ss', true, k);
      }
      SLengthLeq(ss, ss');
    } else {
      assert P.out[b] == g[b];
    }
  }

  // ----- the peephole changes that follow

  /** The number of the accumulator changes only where something is left that writes it. */
  lemma {:induction false} DeletedKeep(nodes: seq<VNode>, tr: NumberTrace, ss: seq<Stmt>, ss': seq<Stmt>, i: nat)
    requires i <= |ss| == |ss'| && |ss| < |tr| && forall k {:trigger ss'[k]} :: i <= k < |ss| ==> ss'[k].code.Nop?
    requires forall k {:trigger Stepped(nodes, tr, ss, ss', true, k)} ::
      0 <= k < |ss| ==> Stepped(nodes, tr, ss, ss', true, k)
    ensures tr[|ss|][A] == tr[i][A]
    decreases |ss| - i
  {
    if i < |ss| {
      assert Stepped(nodes, tr, ss, ss', true, i);
      DeletedKeep(nodes, tr, ss, ss', i + 1);
    }
  }

  /** What an operation is left to compute is not known. */
  lemma OperationUnknown(nodes: seq<VNode>, val: Vals, s: Stmt, s': Stmt, val': Vals)
    requires Named(nodes, val, s, true, val') && Simplified(nodes, val, s, s', val') && Peephole.IsAlu(s')
    ensures ConstAt(nodes, val'[A]) == None
  {
  }

  /** A list that ends in an operation leaves an accumulator that is not known. */
  lemma FoldedEnds(nodes: seq<VNode>, tr: NumberTrace, ss: seq<Stmt>, ss': seq<Stmt>)
    requires |ss| == |ss'| && |tr| == |ss| + 1
    requires forall k {:trigger Stepped(nodes, tr, ss, ss', true, k)} ::
      0 <= k < |ss| ==> Stepped(nodes, tr, ss, ss', true, k)
    ensures Peephole.FoldedEnd(ss', ConstAt(nodes, tr[|ss|][A]))
  {
    forall l: nat | Peephole.EndsIn(ss', l) && Peephole.IsAlu(ss'[l]) ensures ConstAt(nodes, tr[|ss|][A]) == None {
      assert Stepped(nodes, tr, ss, ss', true, l);
      OperationUnknown(nodes, tr[l], ss[l], ss'[l], tr[l + 1]);
      DeletedKeep(nodes, tr, ss, ss', l + 1);
    }
  }

  /** The known constants are in A and X when a run leaves the block. */
  lemma ConstantsTrusted(nodes: seq<VNode>, val: Vals, o: Store, p: Packet)
    requires Consistent(nodes, val, Known(val), o, p)
    ensures Peephole.Trusted(ConstAt(nodes, val[A]), ConstAt(nodes, val[X]), o)
  {
    assert o[A] == o[A] && o[X] == o[X];
  }

  /** A run that does not abort enters the blocks of the rewritten graph as it enters those
      of the graph it was. */
  lemma {:induction false} EntersSame(g: Graph, rank: Rank, root: nat, nodes: seq<VNode>, P: Pass,
                                      x: int, st0: Store, st: Store, p: Packet, b: nat)
    requires WellFormed(g, rank) && WellFormed(P.out, rank) && root in rank && x in rank && x in Reach(g, rank, root)
    requires AllDone(g, nodes, P, true, Reach(g, rank, root)) && AllRun(g, rank, root, nodes, P, Reach(g, rank, root))
    requires Enters(g, rank, root, st0, p, x) == Some(st) && Run(g, rank, x, st, p).Some?
    ensures Enters(P.out, rank, x, st, p, b) == Enters(g, rank, x, st, p, b)
    ensures Enters(g, rank, x, st, p, b).Some? ==>
      b in rank && b >= 0 && Run(g, rank, b, Enters(g, rank, x, st, p, b).value, p).Some?
    decreases rank[x]
  {
    assert NodeOk(g, rank, x) && NodeOk(P.out, rank, x);
    assert Done(g, nodes, P.val[x], P.oval[x], P.entry[x], P.traces[x], P.out[x], true, x);
    assert RunFacts(g, rank, root, nodes, P.val[x], P.out[x], x);
    assert Passes(g, rank, root, x, st0, st, p);
    if x != b && !g[x].Leaf() {
      var st1 := ExecList(g[x].stmts, st, p).value;
      ReachSuccs(g, rank, root, x);
      EntersStep(g, rank, root, st0, p, x, st);
      EntersSame(g, rank, root, nodes, P, Taken(g, x, st1), st0, st1, p, b);
    }
  }

  /** What the peephole changes make of a rewritten block, with the constants the pass has
      found at its end and what is wanted behind it. */
  ghost function PeepedOut(h: Graph, rank: Rank, nodes: seq<VNode>, P: Pass, b: nat): Node
    requires WellFormed(h, rank) && b in rank && b < |h| && b < |P.val|
  {
    var out := LiveOut(h, rank, b);
    Peephole.Peeped(h[b], X in out, A in out, ConstAt(nodes, P.val[b][A]), ConstAt(nodes, P.val[b][X]))
  }

  /** What a run that comes to the block leaves there. */
  lemma KnownAtEnd(g: Graph, rank: Rank, root: nat, nodes: seq<VNode>, P: Pass, b: nat, st: Store, p: Packet)
    requires Finished(g, rank, root, nodes, P) && AllAgree(g, rank, root, nodes, P) && Run(g, rank, root, st, p).Some?
    requires b in Reach(g, rank, root) && b < |g| == |P.out| == |P.val| && WellFormed(P.out, rank)
    ensures Enters(P.out, rank, root, st, p, b) == Enters(g, rank, root, st, p, b)
    ensures Enters(g, rank, root, st, p, b).Some? ==>
      var sb := Enters(g, rank, root, st, p, b).value;
      && ExecList(g[b].stmts, sb, p).Some? && ExecList(P.out[b].stmts, sb, p) == ExecList(g[b].stmts, sb, p)
      && Peephole.Trusted(ConstAt(nodes, P.val[b][A]), ConstAt(nodes, P.val[b][X]), ExecList(g[b].stmts, sb, p).value)
  {
    assert root in Reach(g, rank, root) by { assert NodeOk(g, rank, root); }
    EntersSame(g, rank, root, nodes, P, root, st, st, p, b);
    if Enters(g, rank, root, st, p, b).Some? {
      var sb := Enters(g, rank, root, st, p, b).value;
      assert NodeOk(g, rank, b);
      assert RunFacts(g, rank, root, nodes, P.val[b], P.out[b], b);
      assert Passes(g, rank, root, b, st, sb, p);
      ConstantsTrusted(nodes, P.val[b], ExecList(g[b].stmts, sb, p).value, p);
    }
  }

  /** After both, a run of the graph as it was keeps its verdict, unless the block tests all
      bits of 0; then it goes on with the other successor. */
  lemma PeepedAfter(g: Graph, rank: Rank, root: nat, nodes: seq<VNode>, P: Pass, b: nat, st: Store, p: Packet)
    requires Finished(g, rank, root, nodes, P) && AllAgree(g, rank, root, nodes, P) && Run(g, rank, root, st, p).Some?
    requires b in Reach(g, rank, root) && b in rank && b < |g| == |P.out| == |P.val| && !P.out[b].Leaf()
    requires WellFormed(P.out, rank) && Peephole.Local(P.out[b].stmts, 0, P.out[b].s)
    ensures
      var h := P.out;
      var out, h' := LiveOut(h, rank, b), h[b := PeepedOut(h, rank, nodes, P, b)];
      && WellFormed(h', rank)
      && match Enters(g, rank, root, st, p, b)
         case None => Run(h', rank, root, st, p) == Run(g, rank, root, st, p)
         case Some(sb) =>
           && ExecList(g[b].stmts, sb, p).Some?
           && var o := ExecList(g[b].stmts, sb, p).value;
           && var c := Peephole.NewGoal(h[b], X in out, A in out, o);
           && c in rank && Run(h', rank, root, st, p) == Run(h, rank, c, o, p)
           && (c == Peephole.Goal(h[b], o) ==> Run(h', rank, root, st, p) == Run(g, rank, root, st, p))
  {
    var h := P.out;
    assert Done(g, nodes, P.val[b], P.oval[b], P.entry[b], P.traces[b], P.out[b], true, b);
    FoldedEnds(nodes, P.traces[b], g[b].stmts, h[b].stmts);
    RewrittenVerdict(g, rank, root, nodes, P, st, p);
    KnownAtEnd(g, rank, root, nodes, P, b, st, p);
    Peephole.PeepedVerdict(h, rank, root, b, ConstAt(nodes, P.val[b][A]), ConstAt(nodes, P.val[b][X]), st, p);
  }

  // ----- blocks that change nothing

  /** What is known on entry to a block holds there. */
  lemma KnownAtStart(g: Graph, rank: Rank, root: nat, nodes: seq<VNode>, P: Pass, b: nat, st: Store, sb: Store,
                     p: Packet)
    requires Finished(g, rank, root, nodes, P) && AllAgree(g, rank, root, nodes, P)
    requires b in Reach(g, rank, root) && b < |g| && Enters(g, rank, root, st, p, b) == Some(sb)
    ensures b < |P.entry| && Consistent(nodes, P.entry[b], Known(P.entry[b]), sb, p)
  {
    var R := Reach(g, rank, root);
    assert Joined(g, R, P.val, P.entry[b], b);
    if b == root {
      forall e | Into(g, R, e, b) ensures false {
        RootHasNone(g, rank, root, e);
      }
    }
    EntryFacts(g, rank, root, nodes, P.val, P.out, R, P.entry[b], b, st, sb, p);
  }

  /** A and X leave the block with the numbers they enter it with. */
  predicate Idle(P: Pass, b: nat) {
    && b < |P.entry| && b < |P.val|
    && P.entry[b][A] == P.val[b][A] != 0 && P.entry[b][X] == P.val[b][X] != 0
  }

  /** All statements of a block may be deleted if it returns, or if nothing is wanted behind
      it and A and X leave it as they enter it: runs that do not abort keep their verdict. */
  lemma DeletedAfter(g: Graph, rank: Rank, root: nat, nodes: seq<VNode>, P: Pass, b: nat, st: Store, p: Packet)
    requires Finished(g, rank, root, nodes, P) && AllAgree(g, rank, root, nodes, P) && Run(g, rank, root, st, p).Some?
    requires b in Reach(g, rank, root) && b in rank && b < |g| == |P.out| == |P.val| && WellFormed(P.out, rank)
    requires P.out[b].Leaf() || (LiveOut(P.out, rank, b) == {} && Idle(P, b))
    ensures
      var h' := P.out[b := P.out[b].(stmts := [])];
      WellFormed(h', rank) && Run(h', rank, root, st, p) == Run(g, rank, root, st, p)
  {
    var h, n' := P.out, P.out[b].(stmts := []);
    forall i | 0 <= i < |h| && i in rank ensures NodeOk(h[b := n'], rank, i) {
      assert NodeOk(h, rank, i);
    }
    RewrittenVerdict(g, rank, root, nodes, P, st, p);
    KnownAtEnd(g, rank, root, nodes, P, b, st, p);
    Peephole.RunTo(h, rank, b, n', root, st, p);
    if Enters(g, rank, root, st, p, b).Some? {
      var sb := Enters(g, rank, root, st, p, b).value;
      var o := ExecList(h[b].stmts, sb, p).value;
      assert NodeOk(h, rank, b) && NodeOk(h[b := n'], rank, b);
      if !h[b].Leaf() {
        IdleGoal(g, rank, root, nodes, P, b, st, sb, p);
        Peephole.GoesOn(h, rank, b, n', Peephole.Goal(h[b], o), o, sb, p);
      }
    }
  }

  lemma IdleGoal(g: Graph, rank: Rank, root: nat, nodes: seq<VNode>, P: Pass, b: nat, st: Store, sb: Store, p: Packet)
    requires Finished(g, rank, root, nodes, P) && AllAgree(g, rank, root, nodes, P) && Idle(P, b)
    requires b in Reach(g, rank, root) && b in rank && b < |g| == |P.out| && WellFormed(P.out, rank) && !P.out[b].Leaf()
    requires Enters(g, rank, root, st, p, b) == Some(sb) && ExecList(g[b].stmts, sb, p).Some?
    ensures Holds(P.out[b].s, sb) == Holds(P.out[b].s, ExecList(g[b].stmts, sb, p).value)
  {
    var o := ExecList(g[b].stmts, sb, p).value;
    KnownAtStart(g, rank, root, nodes, P, b, st, sb, p);
    assert RunFacts(g, rank, root, nodes, P.val[b], P.out[b], b);
    assert Passes(g, rank, root, b, st, sb, p);
    assert o[A] == sb[A] && o[X] == sb[X];
    assert NodeOk(P.out, rank, b);
    UsesOnlyBranch(P.out[b].s, sb, o);
  }

  // ----- divisions by zero

  /** Some reachable statement divides by what is known to be 0 when control comes to it. */
  ghost predicate DivisorZero(g: Graph, nodes: seq<VNode>, P: Pass, b: nat, k: nat) {
    && b < |g| && Sized(P, |g|) && k < |g[b].stmts| && k < |P.traces[b]|
    && ZeroDivisor(nodes, P.traces[b][k], g[b].stmts[k])
  }

  ghost predicate NoZeroDivisor(g: Graph, nodes: seq<VNode>, P: Pass, R: set<nat>) {
    forall b: nat, k: nat {:trigger DivisorZero(g, nodes, P, b, k)} :: b in R ==> !DivisorZero(g, nodes, P, b, k)
  }

  lemma ZeroKept(g: Graph, rank: Rank, root: nat, nodes: seq<VNode>, P: Pass, b: nat, k: nat)
    requires Finished(g, rank, root, nodes, P) && b in Reach(g, rank, root) && b < |g|
    ensures |P.out| == |g| && |P.out[b].stmts| == |g[b].stmts|
    ensures k < |g[b].stmts| ==>
      (ZeroDivision(P.out[b].stmts[k].code, P.out[b].stmts[k].k) <==> DivisorZero(g, nodes, P, b, k))
  {
    assert Done(g, nodes, P.val[b], P.oval[b], P.entry[b], P.traces[b], P.out[b], true, b);
    if k < |g[b].stmts| {
      assert Stepped(nodes, P.traces[b], g[b].stmts, P.out[b].stmts, true, k);
    }
  }

  /** The rewritten blocks divide by the constant 0 exactly where a divisor was known to
      be 0. */
  lemma RewrittenZeroFree(g: Graph, rank: Rank, root: nat, nodes: seq<VNode>, P: Pass)
    requires Finished(g, rank, root, nodes, P)
    ensures ZeroFree(P.out, Reach(g, rank, root)) <==>
      NoZeroDivisor(g, nodes, P, Reach(g, rank, root))
  {
    var R := Reach(g, rank, root);
    forall b: nat, k: nat | b in R && b < |g|
      ensures |P.out| == |g| && |P.out[b].stmts| == |g[b].stmts|
      ensures k < |g[b].stmts| ==>
        (ZeroDivision(P.out[b].stmts[k].code, P.out[b].stmts[k].k) <==> DivisorZero(g, nodes, P, b, k)) {
      ZeroKept(g, rank, root, nodes, P, b, k);
    }
  }

  // ----- steady graphs

  predicate Fits(c: Option<Word>, v: Abs) {
    match v
    case Is(k) => c == Some(k)
    case Varies => c == None
    case Unsure => true
  }

  /** The numbers known to be constants are those the statements alone tell. */
  predicate Matches(nodes: seq<VNode>, val: Vals, st: AbsStore) {
    forall a {:trigger st[a]} :: 0 <= a < N_ATOMS ==> Fits(ConstAt(nodes, val[a]), st[a])
  }

  lemma AluFits(nodes: seq<VNode>, val: Vals, s: Stmt, val': Vals, st: AbsStore)
    requires (s.code.AluK? || s.code.AluX?) && Named(nodes, val, s, true, val')
    requires Fits(ConstAt(nodes, val[A]), st[A]) && Fits(ConstAt(nodes, val[X]), st[X])
    ensures Fits(ConstAt(nodes, val'[A]), AbsExec(s, st)[A])
  {
  }

  lemma CopyFits(nodes: seq<VNode>, val: Vals, s: Stmt, val': Vals, st: AbsStore)
    requires Copies(s) && CopyTo(s) < N_ATOMS && Named(nodes, val, s, true, val')
    requires CopyFrom(s) < N_ATOMS ==> Fits(ConstAt(nodes, val[CopyFrom(s)]), st[CopyFrom(s)])
    ensures Fits(ConstAt(nodes, val'[CopyTo(s)]), AbsExec(s, st)[CopyTo(s)])
  {
  }

  lemma LoadFits(nodes: seq<VNode>, val: Vals, s: Stmt, val': Vals, st: AbsStore, a: nat)
    requires !Copies(s) && !s.code.AluK? && !s.code.AluX? && a < N_ATOMS && a in DefSet(s)
    requires Named(nodes, val, s, true, val') && Fits(ConstAt(nodes, val[A]), st[A])
    ensures Fits(ConstAt(nodes, val'[a]), AbsExec(s, st)[a])
  {
  }

  lemma FrameFits(s: Stmt, st: AbsStore, a: nat)
    requires a < N_ATOMS && a !in DefSet(s)
    ensures AbsExec(s, st)[a] == st[a]
  {
  }

  lemma StepFits(nodes: seq<VNode>, val: Vals, s: Stmt, val': Vals, st: AbsStore, a: nat)
    requires a < N_ATOMS && Named(nodes, val, s, true, val') && (a !in DefSet(s) ==> val'[a] == val[a])
    requires Fits(ConstAt(nodes, val[A]), st[A]) && Fits(ConstAt(nodes, val[X]), st[X])
    requires Fits(ConstAt(nodes, val[a]), st[a])
    requires CopyFrom(s) < N_ATOMS ==> Fits(ConstAt(nodes, val[CopyFrom(s)]), st[CopyFrom(s)])
    ensures Fits(ConstAt(nodes, val'[a]), AbsExec(s, st)[a])
  {
    if a !in DefSet(s) {
      FrameFits(s, st, a);
    } else if Copies(s) {
      CopyFits(nodes, val, s, val', st);
    } else if s.code.AluK? || s.code.AluX? {
      AluFits(nodes, val, s, val', st);
    } else {
      LoadFits(nodes, val, s, val', st, a);
    }
  }

  lemma StepMatches(nodes: seq<VNode>, val: Vals, s: Stmt, val': Vals, st: AbsStore)
    requires Matches(nodes, val, st) && Named(nodes, val, s, true, val')
    requires forall a {:trigger val'[a]} :: 0 <= a < N_ATOMS && a !in DefSet(s) ==> val'[a] == val[a]
    ensures Matches(nodes, val', AbsExec(s, st))
  {
    var st1, from := AbsExec(s, st), CopyFrom(s);
    forall a | 0 <= a < N_ATOMS ensures Fits(ConstAt(nodes, val'[a]), st1[a]) {
      assert Fits(ConstAt(nodes, val[A]), st[A]) && Fits(ConstAt(nodes, val[X]), st[X]);
      assert Fits(ConstAt(nodes, val[a]), st[a]) && (from < N_ATOMS ==> Fits(ConstAt(nodes, val[from]), st[from]));
      StepFits(nodes, val, s, val', st, a);
    }
  }

  lemma OkAgrees(nodes: seq<VNode>, val: Vals, s: Stmt, st: AbsStore)
    requires Matches(nodes, val, st) && Ok(s, st)
    ensures Agrees(nodes, val, s) && !ZeroDivisor(nodes, val, s)
  {
    assert Fits(ConstAt(nodes, val[A]), st[A]) && Fits(ConstAt(nodes, val[X]), st[X]);
  }

  /** From statement `i` of a list on, if nothing is amiss there. */
  lemma {:induction false} ListMatches(nodes: seq<VNode>, tr: NumberTrace, ss: seq<Stmt>, ss': seq<Stmt>, i: nat,
                                       st: AbsStore)
    requires i <= |ss| == |ss'| && |ss| < |tr| && Matches(nodes, tr[i], st) && OkRun(ss[i..], st)
    requires forall k {:trigger Stepped(nodes, tr, ss, ss', true, k)} ::
      0 <= k < |ss| ==> Stepped(nodes, tr, ss, ss', true, k)
    ensures Matches(nodes, tr[|ss|], AbsRun(ss[i..], st))
    ensures forall k {:trigger ss[k]} ::
      i <= k < |ss| ==> Agrees(nodes, tr[k], ss[k]) && !ZeroDivisor(nodes, tr[k], ss[k])
    decreases |ss| - i
  {
    if i < |ss| {
      assert ss[i..][0] == ss[i] && ss[i..][1..] == ss[i + 1..];
      assert Stepped(nodes, tr, ss, ss', true, i);
      StepMatches(nodes, tr[i], ss[i], tr[i + 1], st);
      OkAgrees(nodes, tr[i], ss[i], st);
      ListMatches(nodes, tr, ss, ss', i + 1, AbsExec(ss[i], st));
    }
  }

  lemma SteadyList(nodes: seq<VNode>, tr: NumberTrace, ss: seq<Stmt>, ss': seq<Stmt>)
    requires |ss| == |ss'| && |ss| < |tr| && OkRun(ss, UNSURE_STORE)
    requires forall k {:trigger Stepped(nodes, tr, ss, ss', true, k)} ::
      0 <= k < |ss| ==> Stepped(nodes, tr, ss, ss', true, k)
    ensures Matches(nodes, tr[|ss|], AbsRun(ss, UNSURE_STORE)) && ListAgrees(nodes, tr, ss)
    ensures forall k {:trigger ss[k]} :: 0 <= k < |ss| ==> !ZeroDivisor(nodes, tr[k], ss[k])
  {
    assert ss[0..] == ss && Matches(nodes, tr[0], UNSURE_STORE);
    ListMatches(nodes, tr, ss, ss', 0, UNSURE_STORE);
  }

  /** Whatever is folded in a steady graph agrees with the machine, and no divisor is known
      to be 0: this can be read off the statements before the pass is run. */
  lemma SteadyAgree(g: Graph, rank: Rank, root: nat, nodes: seq<VNode>, P: Pass)
    requires Finished(g, rank, root, nodes, P) && SteadyGraph(g)
    ensures FoldsAgree(g, nodes, P, Reach(g, rank, root)) && NoZeroDivisor(g, nodes, P, Reach(g, rank, root))
  {
    var R := Reach(g, rank, root);
    forall b | b in R && b < |g|
      ensures ListAgrees(nodes, P.traces[b], g[b].stmts)
      ensures forall k: nat :: !DivisorZero(g, nodes, P, b, k) {
      assert Done(g, nodes, P.val[b], P.oval[b], P.entry[b], P.traces[b], P.out[b], true, b);
      assert Steady(g[b].stmts);
      SteadyList(nodes, P.traces[b], g[b].stmts, P.out[b].stmts);
    }
  }

  lemma RefusedUnsteady(n0: seq<VNode>, v0: Vals, ss: seq<Stmt>, nodes: seq<VNode>, v: Vals, ss': seq<Stmt>,
                        tr: NumberTrace)
    requires Refused(n0, v0, ss, nodes, v, ss', tr)
    ensures !Steady(ss)
  {
    if Steady(ss) {
      var k := |ss'|;
      var pre := ss[..k];
      assert ss == pre + ss[k..];
      AbsAppend(pre, ss[k..], UNSURE_STORE);
      SteadyList(nodes, tr, pre, ss');
      OkAgrees(nodes, v, ss[k], AbsRun(pre, UNSURE_STORE));
    }
  }

  lemma SteadyNeverStops(g: Graph, rank: Rank, root: nat, P: Pass, S: set<nat>, x: Stop)
    requires StoppedAt(g, rank, root, P, S, x)
    ensures !SteadyGraph(g)
  {
    RefusedUnsteady(x.first, x.entry, g[x.b].stmts, x.nodes, x.before, x.done, x.trace);
    assert x.b < |g| && !Steady(g[x.b].stmts);
  }
}
