/** Jump threading: an edge may skip blocks whose tests are decided by the edges that
    lead to it. */
module JumpThread {
  import opened Bpf
  import opened Flow
  import opened Lists
  import opened Layout
  import opened Dag
  import opened Levels
  import opened Sweep
  import opened PathFacts
  import opened Atoms
  import opened Values
  import opened Numbering
  import opened Runs
  import opened ValueSweep
  import opened Traces
  import opened Seal

  /** What has been computed for the graph before any edge is moved. */
  datatype Facts = Facts(g: Graph, rank: Rank, root: nat, nodes: seq<VNode>, val: seq<Vals>, oval: seq<nat>,
                         edom: seq<set<nat>>)

  ghost function Reachable(F: Facts): set<nat>
    requires WellFormed(F.g, F.rank) && F.root in F.rank
  {
    Reach(F.g, F.rank, F.root)
  }

  ghost predicate Ground(F: Facts) {
    WellFormed(F.g, F.rank) && F.root in F.rank && F.root < |F.g| && |F.val| == |F.oval| == |F.g|
  }

  ghost predicate FactsBody(F: Facts)
    requires Ground(F)
  {
    && ClosedGraph(F.g, Reachable(F))
    && Exited(F.g, F.nodes, F.val, F.oval, Reachable(F)) && Distinct(F.nodes)
    && Visited(EdgeNet(F.g, F.rank, F.root), EdgesOf(F.g, Reachable(F)), F.edom, true)
  }

  ghost predicate FactsOk(F: Facts) {
    Ground(F) && forall u {:trigger Opened(u)} :: Opened(u) ==> FactsBody(F)
  }

  /** Control leaves the block of the edge by the edge. */
  predicate TakenOn(g: Graph, e: nat, p: Packet) {
    e < 2 * |g| && !g[Pred(g, e)].Leaf() && Goes(g[Pred(g, e)], p) == Some(e < |g|)
  }

  ghost predicate AllTaken(g: Graph, es: seq<nat>, p: Packet) {
    forall e {:trigger TakenOn(g, e, p)} :: e in Elems(es) ==> TakenOn(g, e, p)
  }

  lemma PathSnoc(N: Net, es: seq<nat>, u: nat, e: nat)
    requires Path(N, es, u) && Linked(N.links, u, e) && e in N.active
    ensures Path(N, es + [e], e)
  {
    assert (es + [e])[..|es + [e]| - 1] == es;
  }

  lemma TakenSnoc(g: Graph, es: seq<nat>, e: nat, p: Packet)
    requires AllTaken(g, es, p) && TakenOn(g, e, p)
    ensures AllTaken(g, es + [e], p)
  {
    assert (es + [e])[..|es + [e]| - 1] == es;
  }

  /** An edge by which control arrives at `x`, or the start. */
  ghost predicate Arrived(F: Facts, x: nat, es: seq<nat>, p: Packet)
    requires WellFormed(F.g, F.rank) && F.root in F.rank
  {
    && AllTaken(F.g, es, p)
    && (if es == [] then x == F.root
        else
          es[|es| - 1] < 2 * |F.g| && Succ(F.g, es[|es| - 1]) == x &&
          Path(EdgeNet(F.g, F.rank, F.root), es, es[|es| - 1]))
  }

  lemma ArrivedStep(F: Facts, x: nat, es: seq<nat>, e: nat, p: Packet)
    requires WellFormed(F.g, F.rank) && F.root in F.rank
    requires x < |F.g| && x in Reachable(F) && Arrived(F, x, es, p)
    requires TakenOn(F.g, e, p) && Pred(F.g, e) == x
    ensures Path(EdgeNet(F.g, F.rank, F.root), es + [e], e) && AllTaken(F.g, es + [e], p)
  {
    TakenSnoc(F.g, es, e, p);
    if es == [] {
      PathStart(F, e);
      assert [] + [e] == [e];
    } else {
      EdgeNext(F, es[|es| - 1], e);
      PathSnoc(EdgeNet(F.g, F.rank, F.root), es, es[|es| - 1], e);
    }
  }

  lemma PathStart(F: Facts, e: nat)
    requires WellFormed(F.g, F.rank) && F.root in F.rank && e < 2 * |F.g| && Pred(F.g, e) == F.root
    requires F.root in Reachable(F)
    ensures Path(EdgeNet(F.g, F.rank, F.root), [e], e)
  {
    EdgeMember(F.g, Reachable(F), e);
  }

  lemma EdgeNext(F: Facts, u: nat, e: nat)
    requires WellFormed(F.g, F.rank) && F.root in F.rank && u < 2 * |F.g| && e < 2 * |F.g|
    requires Succ(F.g, u) == Pred(F.g, e) && Pred(F.g, e) in Reachable(F)
    ensures Linked(EdgeNet(F.g, F.rank, F.root).links, u, e) && e in EdgeNet(F.g, F.rank, F.root).active
  {
    EdgeMember(F.g, Reachable(F), e);
    EdgeLinks(F.g, F.rank, F.root, u);
    LinkedByEdge(F.g, EdgeNet(F.g, F.rank, F.root), u, e);
  }

  lemma LinkedByEdge(g: Graph, N: Net, u: nat, e: nat)
    requires SuccIs(g, N, u) && Succ(g, u) >= 0 && (e == Succ(g, u) || e == |g| + Succ(g, u))
    ensures Linked(N.links, u, e)
  {
  }

  /** The edges taken on the way to an edge of the trace. */
  lemma {:induction false} PathAlong(F: Facts, p: Packet, x: nat, es: seq<nat>, e: nat) returns (es': seq<nat>)
    requires WellFormed(F.g, F.rank) && F.root in F.rank
    requires x < |F.g| && x in F.rank && x in Reachable(F) && Arrived(F, x, es, p)
    requires e < 2 * |F.g| && TakenOn(F.g, e, p) && OnTrace(F.g, F.rank, x, Pred(F.g, e), p)
    ensures Path(EdgeNet(F.g, F.rank, F.root), es', e) && AllTaken(F.g, es', p)
    decreases F.rank[x]
  {
    var g := F.g;
    assert NodeOk(g, F.rank, x);
    if x == Pred(g, e) {
      ArrivedStep(F, x, es, e, p);
      es' := es + [e];
    } else {
      var y := Onward(g, x, p);
      assert !g[x].Leaf() && Goes(g[x], p).Some?;
      var d := if Goes(g[x], p).value then x else |g| + x;
      assert TakenOn(g, d, p) && Succ(g, d) == y;
      ArrivedStep(F, x, es, d, p);
      ReachSuccs(g, F.rank, F.root, x);
      es' := PathAlong(F, p, y, es + [d], e);
    }
  }

  /** Control that passes an edge has passed its edge dominators. */
  lemma DominatorTaken(F: Facts, p: Packet, e: nat, k: nat)
    requires FactsOk(F) && e < 2 * |F.g| && TakenOn(F.g, e, p) && OnTrace(F.g, F.rank, F.root, Pred(F.g, e), p)
    requires e < |F.edom| && k in F.edom[e] && k < 2 * |F.g|
    ensures TakenOn(F.g, k, p) && Pred(F.g, k) in Reachable(F)
  {
    assert Opened(Key);
    assert F.root in Reachable(F);
    OnTraceReach(F.g, F.rank, F.root, Pred(F.g, e), p);
    assert Elems([]) == {};
    var es := PathAlong(F, p, F.root, [], e);
    EdgeDominatorsExact(F.g, F.rank, F.root, F.edom, e, k);
    assert k in Elems(es);
    PathActive(EdgeNet(F.g, F.rank, F.root), es, e, k);
    EdgeMember(F.g, Reachable(F), k);
  }

  lemma {:induction false} PathActive(N: Net, ns: seq<nat>, v: nat, y: nat)
    requires Path(N, ns, v) && y in Elems(ns)
    ensures y in N.active
    decreases |ns|
  {
    if y != v {
      assert |ns| > 1;
      PathActive(N, ns[..|ns| - 1], ns[|ns| - 2], y);
    }
  }

  // ----- deciding a test from an edge passed before

  /** Which way `child` must branch once control has passed edge `k`; `None` when that is
      not known. An equal test goes the same way; and a test for another constant fails
      after a successful test for equality with a constant. */
  function Decided(g: Graph, val: seq<Vals>, oval: seq<nat>, child: nat, k: nat): Option<bool>
    requires child < |g| == |val| == |oval| && k < 2 * |g|
  {
    var a := Pred(g, k);
    if g[child].s.code != g[a].s.code || val[child][A] != val[a][A] then None
    else if oval[child] == oval[a] then Some(k < |g|)
    else if k < |g| && g[a].s.code == JmpK(Jeq) then Some(false)
    else None
  }

  /** The accumulator, and X where it is compared, on exit from a closed block. */
  lemma ExitValue(F: Facts, b: nat, p: Packet, a: nat)
    requires FactsOk(F) && b < |F.g| && b in Reachable(F) && !F.g[b].Leaf() && Goes(F.g[b], p).Some?
    requires a in Uses(F.g[b].s) && a < N_ATOMS
    ensures Den(F.nodes, F.val[b][a], p) == Some(ExecList(F.g[b].stmts, ZERO, p).value[a])
  {
    assert Opened(Key);
    assert ExitedAt(F.g, F.nodes, F.val, F.oval, b);
    assert ClosedBlock(F.g[b]);
    var st := Leaving(F.g, b, ZERO, p);
    assert Consistent(F.nodes, F.val[b], DefsOf(F.g[b].stmts), st, p);
    assert st[a] == st[a];
  }

  /** Constants compared with have equal numbers exactly when they are equal. */
  lemma OperandNumbers(F: Facts, b: nat, c: nat)
    requires FactsOk(F) && b < |F.g| && b in Reachable(F) && c < |F.g| && c in Reachable(F)
    requires F.g[b].s.code == F.g[c].s.code
    ensures b < |F.val| == |F.oval| && c < |F.val|
    ensures F.g[b].s.code.JmpX? ==> F.oval[b] == F.val[b][X] && F.oval[c] == F.val[c][X]
    ensures !F.g[b].s.code.JmpX? ==> (F.oval[b] == F.oval[c] <==> F.g[b].s.k == F.g[c].s.k)
  {
    assert Opened(Key);
    assert ExitedAt(F.g, F.nodes, F.val, F.oval, b);
    assert ExitedAt(F.g, F.nodes, F.val, F.oval, c);
  }

  lemma SameTest(s: Stmt, s': Stmt, st: Store, st': Store)
    requires s.code == s'.code && TwoWay(s) && st[A] == st'[A]
    requires if s.code.JmpX? then st[X] == st'[X] else s.k == s'.k
    ensures Holds(s, st) == Holds(s', st')
  {
  }

  lemma OtherConstant(s: Stmt, s': Stmt, st: Store, st': Store)
    requires s.code == s'.code == JmpK(Jeq) && st[A] == st'[A] && s.k != s'.k && Holds(s', st')
    ensures !Holds(s, st)
  {
  }

  lemma DecidedRight(F: Facts, child: nat, k: nat, p: Packet)
    requires FactsOk(F) && child < |F.g| && child in Reachable(F) && !F.g[child].Leaf()
    requires k < 2 * |F.g| && Pred(F.g, k) in Reachable(F) && TakenOn(F.g, k, p) && Goes(F.g[child], p).Some?
    requires Decided(F.g, F.val, F.oval, child, k).Some?
    ensures Goes(F.g[child], p) == Decided(F.g, F.val, F.oval, child, k)
  {
    var g, a := F.g, Pred(F.g, k);
    ReachRanked(g, F.rank, F.root, child);
    assert NodeOk(g, F.rank, child);
    var st, st' := ExecList(g[child].stmts, ZERO, p).value, ExecList(g[a].stmts, ZERO, p).value;
    ExitValue(F, child, p, A);
    ExitValue(F, a, p, A);
    OperandNumbers(F, child, a);
    if F.oval[child] == F.oval[a] {
      if g[child].s.code.JmpX? {
        ExitValue(F, child, p, X);
        ExitValue(F, a, p, X);
      }
      SameTest(g[child].s, g[a].s, st, st');
    } else {
      OtherConstant(g[child].s, g[a].s, st, st');
    }
  }

  // ----- edges that may be moved

  /** On every packet that takes the edge without the run aborting, `t` is where control
      is to arrive sooner or later. */
  ghost predicate Ahead(F: Facts, e: nat, t: int, p: Packet)
    requires FactsOk(F) && e < 2 * |F.g|
  {
    Passed(F, e, p) ==> (Succ(F.g, e) == -1 || Succ(F.g, e) in F.rank) && OnTrace(F.g, F.rank, Succ(F.g, e), t, p)
  }

  ghost predicate Passed(F: Facts, e: nat, p: Packet)
    requires FactsOk(F) && e < 2 * |F.g|
  {
    && Run(F.g, F.rank, F.root, ZERO, p).Some? && TakenOn(F.g, e, p)
    && OnTrace(F.g, F.rank, F.root, Pred(F.g, e), p)
  }

  ghost predicate Lower(F: Facts, e: nat, t: int)
    requires FactsOk(F)
  {
    && 0 <= t < |F.g| && t in Reachable(F) && t in F.rank && Pred(F.g, e) in F.rank
    && Height(F.g, F.rank, t) < Height(F.g, F.rank, Pred(F.g, e))
  }

  /** A target an edge may lead to. */
  ghost predicate Target(F: Facts, e: nat, t: int)
    requires FactsOk(F) && e < 2 * |F.g|
  {
    Lower(F, e, t) && forall p {:trigger Ahead(F, e, t, p)} :: Ahead(F, e, t, p)
  }

  /** The graph whose edges have been moved so far: contents as before, every edge of a
      reachable block leading to a target. */
  ghost predicate Threaded(F: Facts, g: Graph) {
    && FactsOk(F) && |g| == |F.g|
    && (forall b {:trigger g[b]} :: 0 <= b < |g| ==> SameBut(F.g[b], g[b]) && (b !in Reachable(F) ==> g[b] == F.g[b]))
    && forall e {:trigger Edge(F, e)} :: Edge(F, e) ==> Target(F, e, Succ(g, e))
  }

  predicate SameBut(n: Node, n': Node) {
    n'.stmts == n.stmts && n'.s == n.s && (n.Leaf() ==> n' == n)
  }

  /** An edge between reachable blocks. */
  ghost predicate Edge(F: Facts, e: nat)
    requires WellFormed(F.g, F.rank) && F.root in F.rank
  {
    e < 2 * |F.g| && Pred(F.g, e) in Reachable(F) && !F.g[Pred(F.g, e)].Leaf()
  }

  /** An edge passed, and a block ahead of it. */
  lemma AheadFrom(F: Facts, e: nat, t: int, p: Packet)
    requires FactsOk(F) && Edge(F, e) && Target(F, e, t) && Passed(F, e, p)
    ensures OnTrace(F.g, F.rank, F.root, t, p) && Goes(F.g[t], p).Some?
  {
    assert Opened(Key);
    var b := Pred(F.g, e);
    assert Ahead(F, e, t, p);
    assert Onward(F.g, b, p) == Succ(F.g, e);
    assert OnTrace(F.g, F.rank, b, t, p);
    OnTraceTrans(F.g, F.rank, F.root, b, t, p);
    TraceVerdict(F.g, F.rank, F.root, t, p);
    ReachTrans(F.g, F.rank, F.root, t);
    RunAnyState(F.g, F.rank, t, ZERO, p);
  }

  /** From a target the edge may lead on along the edge taken there. */
  lemma AheadOn(F: Facts, e: nat, t: nat, e2: nat, t2: int, p: Packet)
    requires FactsOk(F) && Edge(F, e) && Target(F, e, t) && Edge(F, e2) && Pred(F.g, e2) == t && Target(F, e2, t2)
    requires Passed(F, e, p) && TakenOn(F.g, e2, p)
    ensures Ahead(F, e, t2, p)
  {
    AheadFrom(F, e, t, p);
    assert Ahead(F, e, t, p);
    assert Passed(F, e2, p);
    assert Ahead(F, e2, t2, p);
    assert Onward(F.g, t, p) == Succ(F.g, e2);
    assert OnTrace(F.g, F.rank, t, t2, p);
    OnTraceTrans(F.g, F.rank, Succ(F.g, e), t, t2, p);
  }

  /** A block whose two edges lead to the same place may be skipped. */
  lemma SkipBlock(F: Facts, e: nat, t: nat, t2: int)
    requires FactsOk(F) && Edge(F, e) && Target(F, e, t) && !F.g[t].Leaf()
    requires Target(F, t, t2) && Target(F, |F.g| + t, t2)
    ensures Target(F, e, t2)
  {
    forall p ensures Ahead(F, e, t2, p) {
      if Passed(F, e, p) {
        AheadFrom(F, e, t, p);
        var e2 := if Goes(F.g[t], p).value then t else |F.g| + t;
        AheadOn(F, e, t, e2, t2, p);
      }
    }
  }

  /** A test decided by an edge dominator may be skipped. */
  lemma SkipTest(F: Facts, e: nat, t: nat, k: nat, e2: nat, t2: int)
    requires FactsOk(F) && Edge(F, e) && Target(F, e, t) && !F.g[t].Leaf()
    requires e < |F.edom| && k in F.edom[e] && k < 2 * |F.g|
    requires Decided(F.g, F.val, F.oval, t, k).Some?
    requires e2 == (if Decided(F.g, F.val, F.oval, t, k).value then t else |F.g| + t) && Target(F, e2, t2)
    ensures Target(F, e, t2)
  {
    forall p ensures Ahead(F, e, t2, p) {
      if Passed(F, e, p) {
        SkipTestOn(F, e, t, k, p);
        AheadOn(F, e, t, e2, t2, p);
      }
    }
  }

  lemma SkipTestOn(F: Facts, e: nat, t: nat, k: nat, p: Packet)
    requires FactsOk(F) && Edge(F, e) && Target(F, e, t) && !F.g[t].Leaf() && Passed(F, e, p)
    requires e < |F.edom| && k in F.edom[e] && k < 2 * |F.g|
    requires Decided(F.g, F.val, F.oval, t, k).Some?
    ensures Goes(F.g[t], p) == Decided(F.g, F.val, F.oval, t, k)
  {
    AheadFrom(F, e, t, p);
    DominatorTaken(F, p, e, k);
    DecidedRight(F, t, k, p);
  }

  function SetSucc(g: Graph, e: nat, t: int): Graph
    requires e < 2 * |g|
  {
    if e < |g| then g[e := g[e].(jt := t)] else g[e - |g| := g[e - |g|].(jf := t)]
  }

  lemma SetThreaded(F: Facts, g: Graph, e: nat, t: int)
    requires Threaded(F, g) && Edge(F, e) && Target(F, e, t)
    ensures Threaded(F, SetSucc(g, e, t)) && Succ(SetSucc(g, e, t), e) == t
  {
    var g' := SetSucc(g, e, t);
    var b := Pred(g, e);
    assert SameBut(F.g[b], g[b]);
    forall f | Edge(F, f) ensures Target(F, f, Succ(g', f)) {
      assert f != e ==> Succ(g', f) == Succ(g, f);
    }
    forall c | 0 <= c < |g'| ensures SameBut(F.g[c], g'[c]) && (c !in Reachable(F) ==> g'[c] == F.g[c]) {
      assert SameBut(F.g[c], g[c]);
    }
  }

  lemma BothEdges(F: Facts, g: Graph, e: nat)
    requires Threaded(F, g) && Edge(F, e)
    ensures
      var t := Succ(g, e);
      && Target(F, e, t) && 0 <= t < |g| && g[t].Leaf() == F.g[t].Leaf()
      && (g[t].Leaf() ==> g[t].jt == -1 && g[t].jf == -1)
      && (!g[t].Leaf() ==> Edge(F, t) && Edge(F, |g| + t) && Target(F, t, g[t].jt) && Target(F, |g| + t, g[t].jf))
  {
    var t := Succ(g, e);
    assert Target(F, e, t);
    assert SameBut(F.g[t], g[t]);
    assert NodeOk(F.g, F.rank, t);
    if !g[t].Leaf() {
      assert Edge(F, t) && Edge(F, |g| + t);
      assert Succ(g, t) == g[t].jt && Succ(g, |g| + t) == g[t].jf;
    }
  }

  lemma DecidedSame(F: Facts, g: Graph, child: nat, k: nat)
    requires Threaded(F, g) && child < |g| && k < 2 * |g|
    ensures Decided(g, F.val, F.oval, child, k) == Decided(F.g, F.val, F.oval, child, k)
  {
    assert SameBut(F.g[child], g[child]);
    assert SameBut(F.g[Pred(g, k)], g[Pred(g, k)]);
  }

  // ----- when an edge cannot be moved further

  /** Some atom wanted after `succ` has another number there than on exit from `b`. */
  predicate Conflict(val: seq<Vals>, outUse: seq<set<nat>>, b: nat, succ: nat)
    requires b < |val| && succ < |val| && succ < |outUse|
  {
    exists a {:trigger a in outUse[succ]} :: 0 <= a < N_ATOMS && a in outUse[succ] && val[b][a] != val[succ][a]
  }

  /** An edge out of `b` may not be moved to `t`. */
  predicate Barred(g: Graph, val: seq<Vals>, outUse: seq<set<nat>>, b: nat, t: int)
    requires b < |g| == |val| == |outUse|
  {
    0 <= t < |g| ==> Conflict(val, outUse, b, t)
  }

  /** Edge `k` does not let an edge out of `b` skip the test of `s`. If both make the same
      test of equal accumulators, a successor of `s` is next: with equal operands the one on
      the side of `k`, and behind the true side of a test for a constant the false one with
      any other constant; that one is barred. */
  predicate Stays(g: Graph, val: seq<Vals>, oval: seq<nat>, outUse: seq<set<nat>>, b: nat, s: nat, k: nat)
    requires b < |g| == |val| == |oval| == |outUse| && s < |g| && k < 2 * |g|
  {
    var a := if k < |g| then k else k - |g|;
    g[s].s.code == g[a].s.code && val[s][A] == val[a][A] ==>
      && (oval[s] == oval[a] && k < |g| ==> Barred(g, val, outUse, b, g[s].jt))
      && (oval[s] == oval[a] && k >= |g| ==> Barred(g, val, outUse, b, g[s].jf))
      && (oval[s] != oval[a] && k < |g| && g[a].s.code == JmpK(Jeq) ==> Barred(g, val, outUse, b, g[s].jf))
  }

  /** Edge `k` says that the test of `s` leads to `t`. */
  predicate Points(g: Graph, val: seq<Vals>, oval: seq<nat>, s: nat, k: nat, t: int)
    requires |g| == |val| == |oval| && s < |g| && k < 2 * |g|
  {
    var a := if k < |g| then k else k - |g|;
    && g[s].s.code == g[a].s.code && val[s][A] == val[a][A]
    && (if oval[s] == oval[a] then t == if k < |g| then g[s].jt else g[s].jf
        else k < |g| && g[a].s.code == JmpK(Jeq) && t == g[s].jf)
  }

  /** Edge `e` may be moved from `s` to `t`: nothing wanted there differs, and both branches
      of `s` lead there or an edge dominator says so. */
  ghost predicate Hop(g: Graph, val: seq<Vals>, oval: seq<nat>, outUse: seq<set<nat>>, edom: seq<set<nat>>, e: nat,
                      s: nat, t: int) {
    && |g| == |val| == |oval| == |outUse| && e < 2 * |g| == |edom| && s < |g|
    && !Barred(g, val, outUse, Pred(g, e), t)
    && ((g[s].jt == t && g[s].jf == t) ||
        exists k {:trigger k in edom[e]} :: k in edom[e] && k < 2 * |g| && Points(g, val, oval, s, k, t))
  }

  /** Where an edge was, step by step. */
  ghost predicate Hops(g: Graph, val: seq<Vals>, oval: seq<nat>, outUse: seq<set<nat>>, edom: seq<set<nat>>, e: nat,
                       hs: seq<int>) {
    hs != [] &&
    (|hs| == 1 ||
     (0 <= hs[|hs| - 2] && Hop(g, val, oval, outUse, edom, e, hs[|hs| - 2], hs[|hs| - 1]) &&
      Hops(g, val, oval, outUse, edom, e, hs[..|hs| - 1])))
  }

  /** The edge has come by hops from where it was in `g0` to where it is in `g`; kept
      folded. */
  ghost predicate Route(g0: Graph, g: Graph, val: seq<Vals>, oval: seq<nat>, outUse: seq<set<nat>>,
                        edom: seq<set<nat>>, e: nat, hs: seq<int>) {
    forall u {:trigger Opened(u)} :: Opened(u) ==>
      && e < 2 * |g0| && |g| == |g0| && Hops(g0, val, oval, outUse, edom, e, hs)
      && hs[0] == Succ(g0, e) && hs[|hs| - 1] == Succ(g, e)
  }

  lemma HopsMore(g: Graph, val: seq<Vals>, oval: seq<nat>, outUse: seq<set<nat>>, edom: seq<set<nat>>, e: nat,
                 hs: seq<int>, t: int)
    requires Hops(g, val, oval, outUse, edom, e, hs) && hs[|hs| - 1] >= 0
    requires Hop(g, val, oval, outUse, edom, e, hs[|hs| - 1], t)
    ensures Hops(g, val, oval, outUse, edom, e, hs + [t])
  {
    assert (hs + [t])[..|hs + [t]| - 1] == hs;
  }

  /** Moving the edge itself makes no difference to where it may go on. */
  lemma HopBefore(g: Graph, g': Graph, val: seq<Vals>, oval: seq<nat>, outUse: seq<set<nat>>, edom: seq<set<nat>>,
                  e: nat, x: int, s: nat, t: int)
    requires e < 2 * |g| && g' == SetSucc(g, e, x) && s != Pred(g, e)
    requires Hop(g', val, oval, outUse, edom, e, s, t)
    ensures Hop(g, val, oval, outUse, edom, e, s, t)
  {
    assert g'[s] == g[s] && forall a {:trigger g'[a]} :: 0 <= a < |g| ==> g'[a].s == g[a].s;
    if !(g[s].jt == t && g[s].jf == t) {
      var k :| k in edom[e] && k < 2 * |g| && Points(g', val, oval, s, k, t);
      assert Points(g, val, oval, s, k, t);
    }
  }

  lemma RouteEnd(g0: Graph, g1: Graph, g2: Graph, val: seq<Vals>, oval: seq<nat>, outUse: seq<set<nat>>,
                 edom: seq<set<nat>>, e: nat, hs: seq<int>)
    requires Route(g0, g1, val, oval, outUse, edom, e, hs) && |g1| == |g2| && e < 2 * |g1| && Succ(g1, e) == Succ(g2, e)
    ensures Route(g0, g2, val, oval, outUse, edom, e, hs)
  {
    assert Opened(Key);
  }

  lemma RouteMore(g0: Graph, g1: Graph, g2: Graph, val: seq<Vals>, oval: seq<nat>, outUse: seq<set<nat>>,
                  edom: seq<set<nat>>, e: nat, hs: seq<int>)
    requires e < 2 * |g0| && |g0| == |g1| == |g2| && g1 == SetSucc(g0, e, Succ(g1, e)) && Succ(g1, e) >= 0
    requires Route(g0, g1, val, oval, outUse, edom, e, hs) && Succ(g1, e) != Pred(g0, e)
    requires Hop(g1, val, oval, outUse, edom, e, Succ(g1, e), Succ(g2, e))
    ensures Route(g0, g2, val, oval, outUse, edom, e, hs + [Succ(g2, e)])
  {
    assert Opened(Key);
    HopBefore(g0, g1, val, oval, outUse, edom, e, Succ(g1, e), Succ(g1, e), Succ(g2, e));
    HopsMore(g0, val, oval, outUse, edom, e, hs, Succ(g2, e));
  }

  /** No edge dominator lets the edge be moved. */
  ghost predicate Settled(g: Graph, val: seq<Vals>, oval: seq<nat>, outUse: seq<set<nat>>, edom: seq<set<nat>>,
                          e: nat) {
    && |g| == |val| == |oval| == |outUse| && e < 2 * |g| == |edom| && 0 <= Succ(g, e) < |g|
    && forall k {:trigger k in edom[e]} :: k in edom[e] && k < 2 * |g| ==>
         Stays(g, val, oval, outUse, Pred(g, e), Succ(g, e), k)
  }

  /** No edge is moved by an edge dominator of its own. */
  ghost predicate EverySettled(F: Facts, g: Graph, outUse: seq<set<nat>>) {
    Ground(F) && forall e {:trigger Edge(F, e)} :: Edge(F, e) ==> Settled(g, F.val, F.oval, outUse, F.edom, e)
  }

  lemma StaysKept(g: Graph, val: seq<Vals>, oval: seq<nat>, outUse: seq<set<nat>>, e: nat, t: int, b: nat, s: nat,
                  k: nat)
    requires b < |g| == |val| == |oval| == |outUse| && s < |g| && k < 2 * |g| && e < 2 * |g| && s != Pred(g, e)
    requires Stays(g, val, oval, outUse, b, s, k)
    ensures Stays(SetSucc(g, e, t), val, oval, outUse, b, s, k)
  {
    var g' := SetSucc(g, e, t);
    assert g'[s] == g[s] && g'[Pred(g, k)].s == g[Pred(g, k)].s;
  }

  /** Moving an edge does not unsettle another, unless it leaves the block the other leads
      to. */
  lemma SettledKept(g: Graph, val: seq<Vals>, oval: seq<nat>, outUse: seq<set<nat>>, edom: seq<set<nat>>, e: nat,
                    t: int, f: nat)
    requires e < 2 * |g| && f != e && Settled(g, val, oval, outUse, edom, f) && Succ(g, f) != Pred(g, e)
    ensures Settled(SetSucc(g, e, t), val, oval, outUse, edom, f)
  {
    var g', s := SetSucc(g, e, t), Succ(g, f);
    assert Succ(g', f) == s;
    forall k | k in edom[f] && k < 2 * |g| ensures Stays(g', val, oval, outUse, Pred(g', f), s, k) {
      StaysKept(g, val, oval, outUse, e, t, Pred(g, f), s, k);
    }
  }

  /** Moving both edges of a block settles them and unsettles none that does not lead to
      the block. */
  lemma BothMoved(g0: Graph, g1: Graph, g2: Graph, val: seq<Vals>, oval: seq<nat>, outUse: seq<set<nat>>,
                  edom: seq<set<nat>>, b: nat, f: nat)
    requires b < |g0| == |g1| == |g2| && f < 2 * |g0|
    requires g1 == SetSucc(g0, b, Succ(g1, b)) && g2 == SetSucc(g1, |g0| + b, Succ(g2, |g0| + b))
    requires Settled(g1, val, oval, outUse, edom, b) && Settled(g2, val, oval, outUse, edom, |g0| + b)
    requires Succ(g0, f) != b && Succ(g1, f) != b && (Pred(g0, f) != b ==> Settled(g0, val, oval, outUse, edom, f))
    ensures Settled(g2, val, oval, outUse, edom, f)
  {
    if f != |g0| + b {
      if f != b {
        SettledKept(g0, val, oval, outUse, edom, b, Succ(g1, b), f);
      }
      SettledKept(g1, val, oval, outUse, edom, |g0| + b, Succ(g2, |g0| + b), f);
    }
  }

  /** Both branches of the block the edge leads to go the same way, and nothing is wanted
      there that it changes. */
  predicate Collapses(g: Graph, val: seq<Vals>, outUse: seq<set<nat>>, e: nat)
    requires |g| == |val| == |outUse| && e < 2 * |g|
  {
    var s := Succ(g, e);
    0 <= s < |g| && !g[s].Leaf() && g[s].jt == g[s].jf && 0 <= g[s].jt < |g| &&
      !Conflict(val, outUse, Pred(g, e), g[s].jt)
  }

  // ----- the sweep

  class Threader {
    ghost const F: Facts
    const val: seq<Vals>
    const oval: seq<nat>
    const edom: seq<set<nat>>
    const outUse: seq<set<nat>>
    const level: seq<nat>
    const levels: Rows
    var g: Graph

    constructor (g: Graph, ghost F: Facts, val: seq<Vals>, oval: seq<nat>, edom: seq<set<nat>>, outUse: seq<set<nat>>,
                 level: seq<nat>, levels: Rows)
      ensures this.g == g && this.F == F && this.val == val && this.oval == oval && this.edom == edom
      ensures this.outUse == outUse && this.level == level && this.levels == levels
    {
      this.g, this.F, this.val, this.oval, this.edom := g, F, val, oval, edom;
      this.outUse, this.level, this.levels := outUse, level, levels;
    }

    ghost predicate Valid()
      reads this
    {
      && Threaded(F, g) && val == F.val && oval == F.oval && edom == F.edom
      && |outUse| == |g| && |edom| == 2 * |g|
    }

    method UseConflict(b: nat, succ: nat) returns (r: bool)
      requires b < |val| && succ < |val| && succ < |outUse|
      ensures r <==> Conflict(val, outUse, b, succ)
    {
      var a := 0;
      while a < N_ATOMS
        invariant 0 <= a <= N_ATOMS
        invariant forall c {:trigger c in outUse[succ]} :: 0 <= c < a && c in outUse[succ] ==> val[b][c] == val[succ][c]
      {
        if a in outUse[succ] && val[b][a] != val[succ][a] {
          return true;
        }
        a := a + 1;
      }
      return false;
    }

    /** Only edge `e` has been moved, and not upwards. */
    twostate predicate OnlyMoved(e: nat)
      reads this
    {
      && e < 2 * |old(g)| == 2 * |g| && g == SetSucc(old(g), e, Succ(g, e))
      && 0 <= Succ(g, e) < |g| && Succ(g, e) in F.rank && 0 <= Succ(old(g), e) < |g| && Succ(old(g), e) in F.rank
      && WellFormed(F.g, F.rank) && Height(F.g, F.rank, Succ(g, e)) <= Height(F.g, F.rank, Succ(old(g), e))
    }

    /** Moves one edge as far as it will go, hop by hop. */
    method OptJ(e: nat) returns (ghost hs: seq<int>)
      requires Valid() && Edge(F, e)
      modifies this`g
      ensures Valid() && OnlyMoved(e)
      ensures Route(old(g), g, val, oval, outUse, edom, e, hs)
      ensures Settled(g, val, oval, outUse, edom, e)
      ensures Collapses(old(g), val, outUse, e) ==>
        Height(F.g, F.rank, Succ(g, e)) < Height(F.g, F.rank, Succ(old(g), e))
    {
      BothEdges(F, g, e);
      NoMove(g, e);
      var s := Succ(g, e);
      hs := NotYet(g, e);
      if g[s].Leaf() {
        return;
      }
      ghost var g0 := g;
      OptSame(e, s);
      hs := Moved(g0, g0, g, e, hs);
      var again := true;
      while again
        invariant Valid() && OnlyMoved(e) && Threaded(F, g0)
        invariant Route(g0, g, val, oval, outUse, edom, e, hs)
        invariant Collapses(old(g), val, outUse, e) ==>
          Height(F.g, F.rank, Succ(g, e)) < Height(F.g, F.rank, Succ(old(g), e))
        invariant !again ==> Settled(g, val, oval, outUse, edom, e)
        decreases Height(F.g, F.rank, Succ(g, e)), again
      {
        ghost var g1 := g;
        again := Thread(e);
        hs := Moved(g0, g1, g, e, hs);
        SetTwice(old(g), g1, g, e);
      }
    }

    lemma NotYet(g: Graph, e: nat) returns (hs: seq<int>)
      requires e < 2 * |g|
      ensures Route(g, g, val, oval, outUse, edom, e, hs)
    {
      hs := [Succ(g, e)];
    }

    /** One hop more, if the edge has moved. */
    lemma Moved(g0: Graph, g1: Graph, g2: Graph, e: nat, hs: seq<int>) returns (hs': seq<int>)
      requires Threaded(F, g1) && Edge(F, e) && |g0| == |g1| == |g2| && g1 == SetSucc(g0, e, Succ(g1, e))
      requires Route(g0, g1, val, oval, outUse, edom, e, hs)
      requires Succ(g2, e) == Succ(g1, e) ||
        (Succ(g1, e) >= 0 && Hop(g1, val, oval, outUse, edom, e, Succ(g1, e), Succ(g2, e)))
      ensures Route(g0, g2, val, oval, outUse, edom, e, hs')
    {
      if Succ(g2, e) == Succ(g1, e) {
        hs' := hs;
        RouteEnd(g0, g1, g2, val, oval, outUse, edom, e, hs);
      } else {
        hs' := hs + [Succ(g2, e)];
        BothEdges(F, g1, e);
        RouteMore(g0, g1, g2, val, oval, outUse, edom, e, hs);
      }
    }

    lemma NoMove(g: Graph, e: nat)
      requires e < 2 * |g|
      ensures SetSucc(g, e, Succ(g, e)) == g
    {
    }

    lemma SetTwice(g0: Graph, g1: Graph, g2: Graph, e: nat)
      requires e < 2 * |g0| && |g0| == |g1| == |g2|
      requires g1 == SetSucc(g0, e, Succ(g1, e)) && g2 == SetSucc(g1, e, Succ(g2, e))
      ensures g2 == SetSucc(g0, e, Succ(g2, e))
    {
    }

    /** A block whose branches agree is skipped. */
    method OptSame(e: nat, s: nat)
      requires Valid() && Edge(F, e) && s == Succ(g, e) && s < |g| && !g[s].Leaf()
      modifies this`g
      ensures Valid() && OnlyMoved(e)
      ensures Collapses(old(g), val, outUse, e) ==>
        Height(F.g, F.rank, Succ(g, e)) < Height(F.g, F.rank, Succ(old(g), e))
      ensures Succ(g, e) == s || Hop(old(g), val, oval, outUse, edom, e, s, Succ(g, e))
    {
      BothEdges(F, g, e);
      NoMove(g, e);
      if g[s].jt == g[s].jf {
        var conflict := UseConflict(Pred(g, e), g[s].jt);
        if !conflict {
          SkipBlock(F, e, s, g[s].jt);
          SetThreaded(F, g, e, g[s].jt);
          g := SetSucc(g, e, g[s].jt);
        }
      }
    }

    /** Looks through the edge dominators for one that decides the next test; true when
        the edge has been moved and not to a leaf. */
    method Thread(e: nat) returns (again: bool)
      requires Valid() && Edge(F, e)
      modifies this`g
      ensures Valid() && OnlyMoved(e)
      ensures again ==> Height(F.g, F.rank, Succ(g, e)) < Height(F.g, F.rank, Succ(old(g), e))
      ensures !again ==> Settled(g, val, oval, outUse, edom, e)
      ensures Succ(g, e) == Succ(old(g), e) ||
        (Succ(old(g), e) >= 0 && Hop(old(g), val, oval, outUse, edom, e, Succ(old(g), e), Succ(g, e)))
    {
      BothEdges(F, g, e);
      NoMove(g, e);
      var s := Succ(g, e);
      var k := 0;
      while k < 2 * |g|
        invariant g == old(g) && 0 <= k <= 2 * |g|
        invariant forall j {:trigger j in edom[e]} ::
          0 <= j < k && j in edom[e] ==> Stays(g, val, oval, outUse, Pred(g, e), s, j)
      {
        if k in edom[e] {
          var moved := TryEdge(e, s, k);
          if moved {
            BothEdges(F, g, e);
            SettledAtLeaf(e);
            return !g[Succ(g, e)].Leaf();
          }
        }
        k := k + 1;
      }
      return false;
    }

    lemma SettledAtLeaf(e: nat)
      requires Valid() && Edge(F, e) && 0 <= Succ(g, e) < |g|
      ensures g[Succ(g, e)].Leaf() ==> Settled(g, val, oval, outUse, edom, e)
    {
      BothEdges(F, g, e);
    }

    /** Tries one edge dominator. */
    method TryEdge(e: nat, s: nat, k: nat) returns (moved: bool)
      requires Valid() && Edge(F, e) && s == Succ(g, e) && s < |g| && k < 2 * |g| && k in edom[e]
      modifies this`g
      ensures Valid() && OnlyMoved(e) && (!moved ==> g == old(g))
      ensures moved <==> !Stays(old(g), val, oval, outUse, Pred(old(g), e), s, k)
      ensures moved ==> Height(F.g, F.rank, Succ(g, e)) < Height(F.g, F.rank, s)
      ensures moved ==> Hop(old(g), val, oval, outUse, edom, e, s, Succ(g, e))
    {
      BothEdges(F, g, e);
      NoMove(g, e);
      var t := Beyond(e, s, k);
      moved := t != -1;
      if moved {
        SetThreaded(F, g, e, t);
        g := SetSucc(g, e, t);
      }
    }

    /** Where the edge may lead instead: past the test of `s`, if edge `k` decides it and
        nothing wanted there differs; -1 if not. */
    method Beyond(e: nat, s: nat, k: nat) returns (t: int)
      requires Valid() && Edge(F, e) && s == Succ(g, e) && s < |g| && k < 2 * |g| && k in edom[e]
      ensures t == -1 <==> Stays(g, val, oval, outUse, Pred(g, e), s, k)
      ensures t != -1 ==>
        Target(F, e, t) && 0 <= t < |g| && t in F.rank && s in F.rank && Height(F.g, F.rank, t) < Height(F.g, F.rank, s)
      ensures t != -1 ==> Hop(g, val, oval, outUse, edom, e, s, t)
    {
      BothEdges(F, g, e);
      DecidedSame(F, g, s, k);
      var d := Decided(g, val, oval, s, k);
      if d == None {
        return -1;
      }
      t := if d.value then g[s].jt else g[s].jf;
      if t == -1 {
        return;
      }
      var conflict := UseConflict(Pred(g, e), t);
      if conflict {
        return -1;
      }
      SkipTest(F, e, s, k, if d.value then s else |g| + s, t);
    }

    /** The edges out of blocks below the sweep are settled. */
    ghost predicate SettledBelow(i: nat, k: nat)
      reads this
      requires Ground(F) && i < |levels| && k <= |levels[i]|
    {
      forall f {:trigger Edge(F, f)} ::
        Edge(F, f) && Pred(F.g, f) in F.rank &&
        (Height(F.g, F.rank, Pred(F.g, f)) < i ||
         (Height(F.g, F.rank, Pred(F.g, f)) == i && Pred(F.g, f) in Elems(levels[i][..k]))) ==>
        Settled(g, val, oval, outUse, edom, f)
    }

    /** Every edge, from the lowest level up: afterwards no edge dominator moves any. */
    method Sweep(root: nat)
      requires Valid() && root == F.root && LevelsOf(F.g, F.rank, root, level, levels)
      modifies this`g
      ensures Valid() && EverySettled(F, g, outUse)
    {
      Bottom(root);
      var i, top := 1, level[root];
      while i <= top
        invariant 1 <= i <= top + 1 && Below(root, i)
      {
        SweepLevel(root, i);
        i := i + 1;
      }
      AllSettled(root, i);
    }

    /** The sweep has come to level `i`; kept folded. */
    ghost predicate Below(root: nat, i: nat)
      reads this
    {
      forall u {:trigger Opened(u)} :: Opened(u) ==>
        && Valid() && root == F.root && LevelsOf(F.g, F.rank, root, level, levels) &&
          0 < i <= level[root] + 1 <= |levels|
        && SettledBelow(i - 1, |levels[i - 1]|)
    }

    lemma Bottom(root: nat)
      requires Valid() && root == F.root && LevelsOf(F.g, F.rank, root, level, levels)
      ensures root < |level| && Below(root, 1)
    {
      SweepStart(F.g, F.rank, root, level, levels);
      NothingAtLevelZero();
    }

    lemma AllSettled(root: nat, i: nat)
      requires root < |level| && i == level[root] + 1 && Below(root, i)
      ensures Valid() && EverySettled(F, g, outUse)
    {
      assert Opened(Key);
      forall e | Edge(F, e) ensures Settled(g, val, oval, outUse, edom, e) {
        EdgeOnRow(e, root);
        assert levels[level[root]][..|levels[level[root]]|] == levels[level[root]];
      }
    }

    lemma EdgeOnRow(e: nat, root: nat)
      requires Ground(F) && Edge(F, e) && root == F.root && LevelsOf(F.g, F.rank, root, level, levels)
      ensures Pred(F.g, e) in F.rank && 0 < Height(F.g, F.rank, Pred(F.g, e)) <= level[root] < |levels|
      ensures Pred(F.g, e) in Elems(levels[Height(F.g, F.rank, Pred(F.g, e))])
    {
      var b := Pred(F.g, e);
      ReachRanked(F.g, F.rank, root, b);
      HeightUnderRoot(F.g, F.rank, root, b);
      LeavesAtLevelZero(F.g, F.rank, b);
      assert OnRow(F.g, F.rank, level, levels, b) && OnRow(F.g, F.rank, level, levels, root);
    }

    lemma NothingAtLevelZero()
      requires Ground(F) && |levels| > 0
      ensures SettledBelow(0, |levels[0]|)
    {
      forall f | Edge(F, f) && Pred(F.g, f) in F.rank ensures Height(F.g, F.rank, Pred(F.g, f)) > 0 {
        LeavesAtLevelZero(F.g, F.rank, Pred(F.g, f));
      }
    }

    lemma LevelUp(i: nat)
      requires Ground(F) && LevelsOf(F.g, F.rank, F.root, level, levels) && 0 < i < |levels|
      requires SettledBelow(i - 1, |levels[i - 1]|)
      ensures SettledBelow(i, 0)
    {
      assert levels[i - 1][..|levels[i - 1]|] == levels[i - 1] && levels[i][..0] == [] && Elems([]) == {};
      forall f | Edge(F, f) ensures Pred(F.g, f) in F.rank && Height(F.g, F.rank, Pred(F.g, f)) < |levels|
        && Pred(F.g, f) in Elems(levels[Height(F.g, F.rank, Pred(F.g, f))]) {
        EdgeOnRow(f, F.root);
      }
    }

    method SweepLevel(root: nat, i: nat)
      requires root < |level| && i <= level[root] && Below(root, i)
      modifies this`g
      ensures Below(root, i + 1)
    {
      assert Opened(Key);
      LevelUp(i);
      var k := 0;
      while k < |levels[i]|
        invariant Valid() && 0 <= k <= |levels[i]| && SettledBelow(i, k)
      {
        OptBlock(i, k);
        k := k + 1;
      }
    }

    /** Both edges of the block at position `k` of level `i`. */
    method OptBlock(i: nat, k: nat)
      requires Valid() && LevelsOf(F.g, F.rank, F.root, level, levels) && 0 < i < |levels| && k < |levels[i]|
      requires SettledBelow(i, k)
      modifies this`g
      ensures Valid() && SettledBelow(i, k + 1)
    {
      var b := levels[i][k];
      RowEdges(F, level, levels, i, k);
      ghost var g0 := g;
      ghost var hs := OptJ(b);
      ghost var g1 := g;
      hs := OptJ(|g| + b);
      forall f | Edge(F, f) && Pred(F.g, f) in F.rank &&
        (Height(F.g, F.rank, Pred(F.g, f)) < i ||
         (Height(F.g, F.rank, Pred(F.g, f)) == i && Pred(F.g, f) in Elems(levels[i][..k + 1])))
        ensures Settled(g, val, oval, outUse, edom, f) {
        RowPrefix(levels[i], k);
        StillSettled(g0, g1, f, i, k);
      }
    }

    lemma RowPrefix(row: seq<nat>, k: nat)
      requires k < |row|
      ensures Elems(row[..k + 1]) == Elems(row[..k]) + {row[k]}
    {
      assert row[..k + 1][..k] == row[..k];
    }

    /** An edge out of a block no higher than `b` does not lead to `b`. */
    lemma NotInto(g: Graph, f: nat, b: nat)
      requires Threaded(F, g) && Edge(F, f) && Pred(F.g, f) in F.rank && b in F.rank
      requires Height(F.g, F.rank, Pred(F.g, f)) <= Height(F.g, F.rank, b)
      ensures Succ(g, f) != b
    {
      assert Target(F, f, Succ(g, f));
    }

    lemma StillSettled(g0: Graph, g1: Graph, f: nat, i: nat, k: nat)
      requires Valid() && Threaded(F, g0) && Threaded(F, g1)
      requires LevelsOf(F.g, F.rank, F.root, level, levels) && 0 < i < |levels| && k < |levels[i]|
      requires
        var b := levels[i][k];
        && b < |g| && g1 == SetSucc(g0, b, Succ(g1, b)) && g == SetSucc(g1, |g| + b, Succ(g, |g| + b))
        && Settled(g1, val, oval, outUse, edom, b) && Settled(g, val, oval, outUse, edom, |g| + b)
      requires Edge(F, f) && Pred(F.g, f) in F.rank && Height(F.g, F.rank, Pred(F.g, f)) <= i
      requires Pred(F.g, f) != levels[i][k] ==> Settled(g0, val, oval, outUse, edom, f)
      ensures Settled(g, val, oval, outUse, edom, f)
    {
      HeightOfRow(i, k);
      NotInto(g0, f, levels[i][k]);
      NotInto(g1, f, levels[i][k]);
      BothMoved(g0, g1, g, val, oval, outUse, edom, levels[i][k], f);
    }

    lemma HeightOfRow(i: nat, k: nat)
      requires Ground(F) && LevelsOf(F.g, F.rank, F.root, level, levels) && i < |levels| && k < |levels[i]|
      ensures levels[i][k] in F.rank && Height(F.g, F.rank, levels[i][k]) == i
    {
      assert RowOk(F.g, F.rank, levels, Reachable(F), i);
      ElemsIn(levels[i], levels[i][k]);
    }
  }

  lemma RowEdges(F: Facts, level: seq<nat>, levels: Rows, i: nat, k: nat)
    requires Ground(F) && LevelsOf(F.g, F.rank, F.root, level, levels) && 0 < i < |levels| && k < |levels[i]|
    ensures Edge(F, levels[i][k]) && Edge(F, |F.g| + levels[i][k])
  {
    var b := levels[i][k];
    assert RowOk(F.g, F.rank, levels, Reachable(F), i);
    ElemsIn(levels[i], b);
    ReachRanked(F.g, F.rank, F.root, b);
    LeavesAtLevelZero(F.g, F.rank, b);
  }

  /** Before the sweep every edge leads to its own successor. */
  lemma StartThreaded(F: Facts)
    requires FactsOk(F)
    ensures Threaded(F, F.g)
  {
    forall e | Edge(F, e) ensures Target(F, e, Succ(F.g, e)) {
      var b := Pred(F.g, e);
      ReachRanked(F.g, F.rank, F.root, b);
      assert NodeOk(F.g, F.rank, b);
      HeightFalls(F.g, F.rank, b);
      ReachSuccs(F.g, F.rank, F.root, b);
      forall p ensures Ahead(F, e, Succ(F.g, e), p) {
      }
    }
    forall b | 0 <= b < |F.g| ensures SameBut(F.g[b], F.g[b]) {
    }
  }

  // ----- what has become of the graph

  ghost function HeightRank(F: Facts): Rank
    requires Ground(F)
  {
    map b: int | b in F.rank && b >= 0 && b in Reachable(F) :: Height(F.g, F.rank, b)
  }

  /** The graph is still acyclic. */
  lemma ThreadedWf(F: Facts, g: Graph)
    requires Threaded(F, g)
    ensures WellFormed(g, HeightRank(F)) && F.root in HeightRank(F)
  {
    var hr := HeightRank(F);
    forall b | 0 <= b < |g| && b in hr ensures NodeOk(g, hr, b) {
      assert SameBut(F.g[b], g[b]);
      assert NodeOk(F.g, F.rank, b);
      if !g[b].Leaf() {
        assert Edge(F, b) && Edge(F, |g| + b);
        assert Succ(g, b) == g[b].jt && Succ(g, |g| + b) == g[b].jf;
      }
    }
  }

  lemma ThreadedClosed(F: Facts, g: Graph, b: int)
    requires Threaded(F, g) && WellFormed(g, HeightRank(F)) && b in HeightRank(F)
    ensures ClosedGraph(g, Reach(g, HeightRank(F), b))
  {
    assert Opened(Key);
    forall c | c in Reach(g, HeightRank(F), b) && c < |g| ensures ClosedBlock(g[c]) {
      ReachRanked(g, HeightRank(F), b, c);
      assert SameBut(F.g[c], g[c]);
      assert ClosedBlock(F.g[c]);
    }
  }

  /** A step of the old run from a block on the trace. */
  lemma OldStep(F: Facts, b: int, p: Packet)
    requires FactsOk(F) && b in F.rank && b >= 0
    requires Run(F.g, F.rank, F.root, ZERO, p).Some? && OnTrace(F.g, F.rank, F.root, b, p)
    ensures Run(F.g, F.rank, b, ZERO, p) == Run(F.g, F.rank, F.root, ZERO, p)
    ensures b in Reachable(F) && Goes(F.g[b], p).Some?
    ensures F.g[b].Leaf() ==> Run(F.g, F.rank, b, ZERO, p) == Some(F.g[b].s.k)
  {
    assert Opened(Key);
    TraceVerdict(F.g, F.rank, F.root, b, p);
    OnTraceReach(F.g, F.rank, F.root, b, p);
    ReachTrans(F.g, F.rank, F.root, b);
    RunAnyState(F.g, F.rank, b, ZERO, p);
  }

  /** The corresponding step of the new one. */
  lemma NewStep(F: Facts, g: Graph, b: int, p: Packet)
    requires Threaded(F, g) && WellFormed(g, HeightRank(F)) && b in HeightRank(F)
    requires Goes(F.g[b], p).Some?
    ensures Goes(g[b], p) == Goes(F.g[b], p) && g[b].Leaf() == F.g[b].Leaf()
    ensures g[b].Leaf() ==> Run(g, HeightRank(F), b, ZERO, p) == Some(F.g[b].s.k)
    ensures !g[b].Leaf() ==>
      Onward(g, b, p) in HeightRank(F) &&
      Run(g, HeightRank(F), b, ZERO, p) == Run(g, HeightRank(F), Onward(g, b, p), ZERO, p)
  {
    assert SameBut(F.g[b], g[b]);
    assert NodeOk(g, HeightRank(F), b);
    ThreadedClosed(F, g, b);
    RunAnyState(g, HeightRank(F), b, ZERO, p);
  }

  /** The edge by which control leaves a block, before and after threading. */
  lemma StepEdge(F: Facts, g: Graph, b: int, p: Packet) returns (e: nat)
    requires Threaded(F, g) && b in F.rank && b >= 0 && b in Reachable(F) && !F.g[b].Leaf() && Goes(F.g[b], p).Some?
    ensures Edge(F, e) && Pred(F.g, e) == b && Goes(F.g[b], p) == Some(e < |F.g|) && Target(F, e, Succ(g, e))
    ensures Onward(F.g, b, p) == Succ(F.g, e) && Onward(g, b, p) == Succ(g, e)
  {
    e := if Goes(F.g[b], p).value then b else |g| + b;
    assert SameBut(F.g[b], g[b]);
    assert NodeOk(F.g, F.rank, b);
    assert Edge(F, e) && Target(F, e, Succ(g, e));
  }

  /** Where the new step leads lies ahead on the old trace. */
  lemma StepAhead(F: Facts, g: Graph, b: int, p: Packet)
    requires Threaded(F, g) && b in F.rank && b >= 0 && b in Reachable(F) && !F.g[b].Leaf()
    requires Run(F.g, F.rank, F.root, ZERO, p).Some? && OnTrace(F.g, F.rank, F.root, b, p) && Goes(F.g[b], p).Some?
    ensures Onward(F.g, b, p) in F.rank && OnTrace(F.g, F.rank, Onward(F.g, b, p), Onward(g, b, p), p)
    ensures Onward(g, b, p) in F.rank && Onward(g, b, p) >= 0 && OnTrace(F.g, F.rank, F.root, Onward(g, b, p), p)
    ensures Height(F.g, F.rank, Onward(g, b, p)) < Height(F.g, F.rank, b)
  {
    var e := StepEdge(F, g, b, p);
    var t := Succ(g, e);
    assert NodeOk(F.g, F.rank, b);
    assert Passed(F, e, p) && Ahead(F, e, t, p);
    assert OnTrace(F.g, F.rank, b, t, p);
    OnTraceTrans(F.g, F.rank, F.root, b, t, p);
  }

  /** From a block on the old trace, the new trace is part of the old one, and ends with
      the same verdict. */
  lemma {:induction false} ThreadedFrom(F: Facts, g: Graph, b: int, p: Packet)
    requires Threaded(F, g) && WellFormed(g, HeightRank(F)) && b in HeightRank(F)
    requires Run(F.g, F.rank, F.root, ZERO, p).Some? && OnTrace(F.g, F.rank, F.root, b, p)
    ensures Run(g, HeightRank(F), b, ZERO, p) == Run(F.g, F.rank, F.root, ZERO, p)
    ensures Subsequence(Trace(g, HeightRank(F), b, p), Trace(F.g, F.rank, b, p))
    decreases HeightRank(F)[b]
  {
    OldStep(F, b, p);
    NewStep(F, g, b, p);
    assert NodeOk(F.g, F.rank, b) && NodeOk(g, HeightRank(F), b);
    if !g[b].Leaf() {
      StepAhead(F, g, b, p);
      var t := Onward(g, b, p);
      ThreadedFrom(F, g, t, p);
      TraceSuffix(F.g, F.rank, Onward(F.g, b, p), t, p, Trace(g, HeightRank(F), t, p));
      SubsequenceCons(b, Trace(g, HeightRank(F), t, p), Trace(F.g, F.rank, Onward(F.g, b, p), p));
    } else {
      SubsequenceCons(b, [], []);
    }
  }

  lemma SubsequenceCons(x: nat, a: seq<nat>, b: seq<nat>)
    requires Subsequence(a, b)
    ensures Subsequence([x] + a, [x] + b)
  {
    assert ([x] + a)[1..] == a && ([x] + b)[1..] == b;
  }

  /** The sweep leaves the verdict of every run that does not abort as it was, and the
      new trace is a subsequence of the old. */
  lemma ThreadedVerdict(F: Facts, g: Graph, st: Store, p: Packet)
    requires Threaded(F, g) && WellFormed(g, HeightRank(F)) && F.root in HeightRank(F)
    requires Run(F.g, F.rank, F.root, st, p).Some?
    ensures Run(g, HeightRank(F), F.root, st, p) == Run(F.g, F.rank, F.root, st, p)
    ensures Subsequence(Trace(g, HeightRank(F), F.root, p), Trace(F.g, F.rank, F.root, p))
  {
    assert Opened(Key);
    RunAnyState(F.g, F.rank, F.root, st, p);
    ThreadedFrom(F, g, F.root, p);
    ThreadedClosed(F, g, F.root);
    RunAnyState(g, HeightRank(F), F.root, st, p);
  }
}
