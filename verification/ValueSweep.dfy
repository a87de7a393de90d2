/** One value-numbering pass over the graph: each block starts from what its predecessors
    agree on and executes its statements symbolically. */
module ValueSweep {
  import opened Bpf
  import opened Flow
  import opened Lists
  import opened Layout
  import opened Dag
  import opened Levels
  import opened Sweep
  import opened PathFacts
  import opened Atoms
  import opened Values
  import opened Numbering
  import opened Runs
  import opened Seal

  // ----- what the numbers on exit from a block promise

  /** The run from `st0` enters `b` in state `st` and gets through its statements. */
  ghost predicate Passes(g: Graph, rank: Rank, root: nat, b: nat, st0: Store, st: Store, p: Packet)
    requires WellFormed(g, rank) && root in rank && b < |g|
  {
    Enters(g, rank, root, st0, p, b) == Some(st) && ExecList(g[b].stmts, st, p).Some?
  }

  function Leaving(g: Graph, b: nat, st: Store, p: Packet): Store
    requires b < |g|
  {
    match ExecList(g[b].stmts, st, p) case None => st case Some(st1) => st1
  }

  /** A run that passes the block does there what it does in the rewritten block, and
      leaves in every atom with a known number the word the number stands for. */
  ghost predicate RunFacts(g: Graph, rank: Rank, root: nat, nodes: seq<VNode>, val: Vals, n: Node, b: nat) {
    && WellFormed(g, rank) && root in rank && b < |g|
    && forall st0, st, p {:trigger Passes(g, rank, root, b, st0, st, p)} ::
         Passes(g, rank, root, b, st0, st, p) ==>
           && ExecList(n.stmts, st, p) == ExecList(g[b].stmts, st, p)
           && Consistent(nodes, val, Known(val), Leaving(g, b, st, p), p)
  }

  /** Whatever state a closed block is entered in, the atoms it writes hold what their
      numbers say. */
  ghost predicate LocalFacts(g: Graph, nodes: seq<VNode>, val: Vals, b: nat) {
    && b < |g| && Handed(nodes, val)
    && (ClosedList(g[b].stmts) ==>
          && (forall a {:trigger val[a]} :: a in DefsOf(g[b].stmts) && 0 <= a < N_ATOMS ==> val[a] > 0)
          && forall st, p {:trigger Leaving(g, b, st, p)} ::
               ExecList(g[b].stmts, st, p).Some? ==>
                 Consistent(nodes, val, DefsOf(g[b].stmts), Leaving(g, b, st, p), p))
  }

  lemma RunFactsGrow(g: Graph, rank: Rank, root: nat, n0: seq<VNode>, n1: seq<VNode>, val: Vals, n: Node, b: nat)
    requires RunFacts(g, rank, root, n0, val, n, b) && Handed(n0, val) && Grows(n0, n1)
    ensures RunFacts(g, rank, root, n1, val, n, b)
  {
    forall st0, st, p | Passes(g, rank, root, b, st0, st, p)
      ensures Consistent(n1, val, Known(val), Leaving(g, b, st, p), p) {
      ConsistentGrows(n0, n1, val, Known(val), Leaving(g, b, st, p), p);
    }
  }

  lemma LocalFactsGrow(g: Graph, n0: seq<VNode>, n1: seq<VNode>, val: Vals, b: nat)
    requires LocalFacts(g, n0, val, b) && Grows(n0, n1)
    ensures LocalFacts(g, n1, val, b)
  {
    if ClosedList(g[b].stmts) {
      forall st, p | ExecList(g[b].stmts, st, p).Some?
        ensures Consistent(n1, val, DefsOf(g[b].stmts), Leaving(g, b, st, p), p) {
        ConsistentGrows(n0, n1, val, DefsOf(g[b].stmts), Leaving(g, b, st, p), p);
      }
    }
  }

  // ----- joining predecessors

  const UNKNOWN: Vals := seq(N_ATOMS, i => 0)

  /** The number an atom has on entry: the one all predecessors agree on, or none. */
  ghost predicate JoinedAt(val: seq<Vals>, preds: seq<nat>, a: nat, v: nat)
    requires a < N_ATOMS && forall k :: 0 <= k < |preds| ==> preds[k] < |val|
  {
    && (v != 0 ==> preds != [] && forall k {:trigger preds[k]} :: 0 <= k < |preds| ==> val[preds[k]][a] == v)
    && (v == 0 ==> forall w {:trigger AgreedOn(val, preds, a, w)} ::
      preds != [] && AgreedOn(val, preds, a, w) ==> w == 0)
  }

  ghost predicate AgreedOn(val: seq<Vals>, preds: seq<nat>, a: nat, w: nat)
    requires a < N_ATOMS && forall k :: 0 <= k < |preds| ==> preds[k] < |val|
  {
    forall k {:trigger preds[k]} :: 0 <= k < |preds| ==> val[preds[k]][a] == w
  }

  function Meet(v: nat, w: nat): nat {
    if v != w then 0 else v
  }

  /** The values of the first predecessor, with 0 wherever another one differs. */
  method JoinPreds(val: seq<Vals>, preds: seq<nat>) returns (r: Vals)
    requires forall k :: 0 <= k < |preds| ==> preds[k] < |val|
    ensures forall a {:trigger r[a]} :: 0 <= a < N_ATOMS ==> JoinedAt(val, preds, a, r[a])
  {
    if preds == [] {
      return UNKNOWN;
    }
    r := val[preds[0]];
    assert preds[..1] == [preds[0]];
    var k := 1;
    while k < |preds|
      invariant 1 <= k <= |preds|
      invariant forall a {:trigger r[a]} :: 0 <= a < N_ATOMS ==> JoinedAt(val, preds[..k], a, r[a])
    {
      var w := val[preds[k]];
      var r' := seq(N_ATOMS, a requires 0 <= a < N_ATOMS => Meet(r[a], w[a]));
      forall a | 0 <= a < N_ATOMS ensures JoinedAt(val, preds[..k + 1], a, r'[a]) {
        JoinMore(val, preds, k, a, r[a]);
      }
      r := r';
      k := k + 1;
    }
    assert preds[..|preds|] == preds;
  }

  lemma JoinMore(val: seq<Vals>, preds: seq<nat>, k: nat, a: nat, v: nat)
    requires a < N_ATOMS && 0 < k < |preds| && forall j :: 0 <= j < |preds| ==> preds[j] < |val|
    requires JoinedAt(val, preds[..k], a, v)
    ensures JoinedAt(val, preds[..k + 1], a, Meet(v, val[preds[k]][a]))
  {
    var w := val[preds[k]][a];
    var l, l' := preds[..k], preds[..k + 1];
    assert forall j {:trigger l'[j]} :: 0 <= j < k ==> l'[j] == l[j];
    assert l'[k] == preds[k];
    var first := val[l[0]][a];
    assert l[0] == l'[0] && (v != 0 ==> first == v);
    if Meet(v, w) == 0 {
      forall x | AgreedOn(val, l', a, x) ensures x == 0 {
        assert val[l'[k]][a] == x;
        assert AgreedOn(val, l, a, x) by {
          forall j | 0 <= j < |l| ensures val[l[j]][a] == x {
            assert l'[j] == l[j];
          }
        }
      }
    }
  }

  // ----- how many numbers a pass can hand out

  function Cost(n: Node): nat {
    2 * SLength(n.stmts) + 1
  }

  /** The numbers the blocks of `S` may ask for: two a statement and one a block. */
  ghost function Spent(g: Graph, S: set<nat>): nat {
    Total(seq(|g|, b requires 0 <= b < |g| => if b in S then Cost(g[b]) else 0))
  }

  /** Three for every statement and every block, as the tables are sized. */
  ghost function MaxVal(g: Graph, S: set<nat>): nat {
    3 * Total(seq(|g|, b requires 0 <= b < |g| => if b in S then SLength(g[b].stmts) + 1 else 0))
  }

  lemma SpentMore(g: Graph, S: set<nat>, b: nat)
    requires b < |g| && b !in S
    ensures Spent(g, S + {b}) == Spent(g, S) + Cost(g[b])
  {
    var w := seq(|g|, c requires 0 <= c < |g| => if c in S + {b} then Cost(g[c]) else 0);
    TotalZero(w, b);
    assert w[b := 0] == seq(|g|, c requires 0 <= c < |g| => if c in S then Cost(g[c]) else 0);
  }

  lemma {:induction false} TotalLeq(a: seq<nat>, b: seq<nat>)
    requires |a| == |b| && forall i :: 0 <= i < |a| ==> 0 <= a[i] <= b[i]
    ensures Total(a) <= Total(b)
  {
    if a != [] {
      TotalLeq(a[..|a| - 1], b[..|b| - 1]);
    }
  }

  lemma {:induction false} TotalTwice(a: seq<nat>, b: seq<nat>)
    requires |a| == |b| && forall i :: 0 <= i < |a| ==> a[i] <= 2 * b[i]
    ensures Total(a) <= 2 * Total(b)
  {
    if a != [] {
      TotalTwice(a[..|a| - 1], b[..|b| - 1]);
    }
  }

  lemma {:induction false} TotalSome(a: seq<nat>, i: nat)
    requires i < |a|
    ensures a[i] <= Total(a)
  {
    if i < |a| - 1 {
      TotalSome(a[..|a| - 1], i);
    }
  }

  lemma SpentLeq(g: Graph, S: set<nat>, R: set<nat>)
    requires S <= R
    ensures Spent(g, S) <= Spent(g, R)
  {
    TotalLeq(seq(|g|, b requires 0 <= b < |g| => if b in S then Cost(g[b]) else 0),
             seq(|g|, b requires 0 <= b < |g| => if b in R then Cost(g[b]) else 0));
  }

  /** The tables cannot overflow. */
  lemma SpentUnderMaxVal(g: Graph, R: set<nat>, b: nat)
    requires b in R && b < |g|
    ensures Spent(g, R) + 1 < MaxVal(g, R)
  {
    var w := seq(|g|, c requires 0 <= c < |g| => if c in R then SLength(g[c].stmts) + 1 else 0);
    var v := seq(|g|, c requires 0 <= c < |g| => if c in R then Cost(g[c]) else 0);
    var v' := v[b := v[b] + 1];
    TotalUpdate(v, b);
    TotalTwice(v', w);
    TotalSome(w, b);
    assert w[b] == SLength(g[b].stmts) + 1;
  }

  // ----- in-edges

  /** An edge into `x` from a block of `S` that branches. */
  predicate Into(g: Graph, S: set<nat>, e: nat, x: int) {
    e < 2 * |g| && Pred(g, e) in S && 0 <= Pred(g, e) < |g| && !g[Pred(g, e)].Leaf() && Succ(g, e) == x
  }

  /** The list holds exactly the edges into `x` from `S`, each once. */
  ghost predicate EdgesListed(g: Graph, S: set<nat>, list: seq<nat>, x: nat) {
    NoRepeat(list) && forall e {:trigger Into(g, S, e, x)} :: Into(g, S, e, x) <==> e in Elems(list)
  }

  ghost predicate InEdges(g: Graph, S: set<nat>, inEdges: seq<seq<nat>>) {
    |inEdges| == |g| && forall x {:trigger EdgesListed(g, S, inEdges[x], x)} ::
      0 <= x < |g| ==> EdgesListed(g, S, inEdges[x], x)
  }

  function Linking(inEdges: seq<seq<nat>>, e: nat, x: int): seq<seq<nat>> {
    if 0 <= x < |inEdges| then inEdges[x := [e] + inEdges[x]] else inEdges
  }

  lemma LinkBlock(g: Graph, S: set<nat>, inEdges: seq<seq<nat>>, b: nat)
    requires InEdges(g, S, inEdges) && b < |g| && b !in S && !g[b].Leaf()
    ensures InEdges(g, S + {b}, Linking(Linking(inEdges, b, g[b].jt), |g| + b, g[b].jf))
  {
    var mid := Linking(inEdges, b, g[b].jt);
    var r := Linking(mid, |g| + b, g[b].jf);
    forall x | 0 <= x < |g| ensures EdgesListed(g, S + {b}, r[x], x) {
      assert EdgesListed(g, S, inEdges[x], x);
      assert !Into(g, S, b, x) && !Into(g, S, |g| + b, x);
      PrependElems(b, inEdges[x]);
      PrependElems(|g| + b, mid[x]);
      forall e ensures Into(g, S + {b}, e, x) <==> e in Elems(r[x]) {
        assert Into(g, S + {b}, e, x) <==>
          Into(g, S, e, x) || (e == b && g[b].jt == x) || (e == |g| + b && g[b].jf == x);
      }
    }
  }

  // ----- the numbers on entry

  /** Every edge into the block brings number `w` for the atom, and there is one. */
  ghost predicate AllBring(g: Graph, R: set<nat>, val: seq<Vals>, b: nat, a: nat, w: nat)
    requires a < N_ATOMS && |val| == |g|
  {
    && (exists e {:trigger Into(g, R, e, b)} :: Into(g, R, e, b))
    && forall e {:trigger Into(g, R, e, b)} :: Into(g, R, e, b) ==> val[Pred(g, e)][a] == w
  }

  /** The number is the one all in-edges bring; without one they agree on, it is 0. */
  ghost predicate Brought(g: Graph, R: set<nat>, val: seq<Vals>, b: nat, a: nat, v: nat)
    requires a < N_ATOMS && |val| == |g|
  {
    if v != 0 then AllBring(g, R, val, b, a, v)
    else forall w {:trigger AllBring(g, R, val, b, a, w)} :: AllBring(g, R, val, b, a, w) ==> w == 0
  }

  /** All numbers on entry are brought by the in-edges. */
  ghost predicate Joined(g: Graph, R: set<nat>, val: seq<Vals>, r: Vals, b: nat)
    requires |val| == |g|
  {
    forall a {:trigger r[a]} :: 0 <= a < N_ATOMS ==> Brought(g, R, val, b, a, r[a])
  }

  lemma BroughtByPreds(g: Graph, R: set<nat>, val: seq<Vals>, list: seq<nat>, preds: seq<nat>, b: nat, a: nat, v: nat)
    requires |val| == |g| && a < N_ATOMS && EdgesListed(g, R, list, b)
    requires |preds| == |list| &&
      forall k {:trigger preds[k]} :: 0 <= k < |list| ==> preds[k] == Pred(g, list[k]) && preds[k] < |val|
    requires JoinedAt(val, preds, a, v)
    ensures Brought(g, R, val, b, a, v)
  {
    forall k | 0 <= k < |list| ensures Into(g, R, list[k], b) {
      ElemsIn(list, list[k]);
    }
    if v != 0 {
      assert Into(g, R, list[0], b);
      forall e | Into(g, R, e, b) ensures val[Pred(g, e)][a] == v {
        ElemsIn(list, e);
        var k :| 0 <= k < |list| && list[k] == e;
        assert val[preds[k]][a] == v;
      }
    } else {
      forall w | AllBring(g, R, val, b, a, w) ensures w == 0 {
        var e :| Into(g, R, e, b);
        ElemsIn(list, e);
        assert preds != [];
        forall k | 0 <= k < |preds| ensures val[preds[k]][a] == w {
          assert Into(g, R, list[k], b);
        }
        assert AgreedOn(val, preds, a, w);
      }
    }
  }

  /** A block that is no predecessor may be given its numbers. */
  lemma BroughtKept(g: Graph, R: set<nat>, val: seq<Vals>, c: nat, a: nat, v: nat, b: nat, x: Vals)
    requires |val| == |g| && a < N_ATOMS && b < |g| && Brought(g, R, val, c, a, v)
    requires forall e {:trigger Into(g, R, e, c)} :: Into(g, R, e, c) ==> Pred(g, e) != b
    ensures Brought(g, R, val[b := x], c, a, v)
  {
    var val' := val[b := x];
    forall w ensures AllBring(g, R, val', c, a, w) <==> AllBring(g, R, val, c, a, w) {
    }
  }

  lemma NotBack(g: Graph, rank: Rank, root: nat, S: set<nat>, b: nat, c: nat, e: nat)
    requires WellFormed(g, rank) && root in rank && Next(BlockNet(g, rank, root), S, b) && b < |g|
    requires c in S + {b} && Into(g, Reach(g, rank, root), e, c)
    ensures Pred(g, e) != b
  {
    var M := BlockNet(g, rank, root);
    assert M.links.s0[b] == g[b].jt && M.links.s1[b] == g[b].jf;
    assert !Linked(M.links, b, b);
  }

  /** The edge by which a run enters a block brings the numbers it has on entry. */
  lemma EntryFacts(g: Graph, rank: Rank, root: nat, nodes: seq<VNode>, val: seq<Vals>, out: Graph, S: set<nat>,
                   r: Vals, b: nat, st0: Store, st: Store, p: Packet)
    requires WellFormed(g, rank) && root in rank && b < |g| == |val| == |out| && b in Reach(g, rank, root)
    requires Joined(g, Reach(g, rank, root), val, r, b)
    requires forall u {:trigger RunFacts(g, rank, root, nodes, val[u], out[u], u)} ::
      u in S && u < |g| ==> RunFacts(g, rank, root, nodes, val[u], out[u], u)
    requires forall e {:trigger Into(g, Reach(g, rank, root), e, b)} ::
      Into(g, Reach(g, rank, root), e, b) ==> Pred(g, e) in S
    requires b == root ==> forall e {:trigger Into(g, Reach(g, rank, root), e, b)} ::
      !Into(g, Reach(g, rank, root), e, b)
    requires Enters(g, rank, root, st0, p, b) == Some(st)
    ensures Consistent(nodes, r, Known(r), st, p)
  {
    if b == root {
      NothingBrought(g, Reach(g, rank, root), val, r, b);
    } else {
      var u, su := EntersFrom(g, rank, root, st0, p, b);
      var e := if Holds(g[u].s, st) then u else |g| + u;
      assert Into(g, Reach(g, rank, root), e, b);
      assert RunFacts(g, rank, root, nodes, val[u], out[u], u);
      assert Passes(g, rank, root, u, st0, su, p) && Leaving(g, u, su, p) == st;
      forall a | a in Known(r) && 0 <= a < N_ATOMS ensures Den(nodes, r[a], p) == Some(st[a]) {
        assert Brought(g, Reach(g, rank, root), val, b, a, r[a]);
        assert val[u][a] == r[a] != 0;
      }
    }
  }

  lemma NothingBrought(g: Graph, R: set<nat>, val: seq<Vals>, r: Vals, b: nat)
    requires |val| == |g| && Joined(g, R, val, r, b) && forall e {:trigger Into(g, R, e, b)} :: !Into(g, R, e, b)
    ensures Known(r) == {}
  {
    forall a | 0 <= a < N_ATOMS ensures r[a] == 0 {
      assert Brought(g, R, val, b, a, r[a]);
    }
  }

  lemma ClosedReads(ss: seq<Stmt>, D: set<nat>)
    requires ClosedList(ss)
    ensures ReadsIn(ss, D)
  {
  }

  /** The symbolic execution of a block gives the numbers their meaning on exit, */
  lemma RunFactsOf(g: Graph, rank: Rank, root: nat, n0: seq<VNode>, r: Vals, alter: bool, n1: seq<VNode>, val: Vals,
                   ss': seq<Stmt>, tr: NumberTrace, b: nat)
    requires WellFormed(g, rank) && root in rank && b < |g| && ReadsIn(g[b].stmts, Known(r))
    requires ListNumbered(n0, r, g[b].stmts, alter, n1, val, ss', tr) && (alter ==> ListAgrees(n1, tr, g[b].stmts))
    requires forall st0, st, p {:trigger Passes(g, rank, root, b, st0, st, p)} ::
      Passes(g, rank, root, b, st0, st, p) ==> Consistent(n0, r, Known(r), st, p)
    ensures RunFacts(g, rank, root, n1, val, g[b].(stmts := ss'), b)
  {
    var ss := g[b].stmts;
    forall st0, st, p | Passes(g, rank, root, b, st0, st, p)
      ensures ExecList(ss', st, p) == ExecList(ss, st, p) && Consistent(n1, val, Known(val), Leaving(g, b, st, p), p) {
      var at := Point(Known(r), st, p);
      assert ListSoundAt(n0, r, ss, alter, n1, val, ss', at);
      forall a | a in Known(val) ensures a in at.D + DefsOf(ss) {
        assert val[a] != 0;
      }
    }
  }

  /** and, when nothing is altered, in a closed block whatever it is entered with. */
  lemma LocalFactsOf(g: Graph, n0: seq<VNode>, r: Vals, n1: seq<VNode>, val: Vals, tr: NumberTrace, b: nat)
    requires b < |g| && ListNumbered(n0, r, g[b].stmts, false, n1, val, g[b].stmts, tr)
    ensures LocalFacts(g, n1, val, b)
  {
    var ss := g[b].stmts;
    if ClosedList(ss) {
      ClosedReads(ss, Known(r));
      forall st, p | ExecList(ss, st, p).Some? ensures Consistent(n1, val, DefsOf(ss), Leaving(g, b, st, p), p) {
        var at := Point({}, st, p);
        ClosedReads(ss, at.D);
        assert ListSoundAt(n0, r, ss, false, n1, val, ss, at);
        assert {} + DefsOf(ss) == DefsOf(ss);
      }
    }
  }

  // ----- the state of the pass

  /** The value a branch compares the accumulator with. */
  ghost predicate OvalOk(nodes: seq<VNode>, n: Node, val: Vals, oval: nat) {
    if n.s.code.JmpX? then oval == val[X] else 1 <= oval <= |nodes| && nodes[oval - 1] == K(n.s.k)
  }

  /** Per block: the numbers on exit, the number its branch compares with, the numbers on
      entry, those before each statement, and what it has been rewritten to. */
  datatype Pass = Pass(val: seq<Vals>, oval: seq<nat>, entry: seq<Vals>, traces: seq<NumberTrace>, out: Graph)

  predicate Sized(P: Pass, n: nat) {
    |P.val| == |P.oval| == |P.entry| == |P.traces| == |P.out| == n
  }

  function Update(P: Pass, b: nat, v: Vals, o: nat, r: Vals, tr: NumberTrace, n: Node): Pass
    requires b < |P.val| == |P.oval| == |P.entry| == |P.traces| == |P.out|
  {
    Pass(P.val[b := v], P.oval[b := o], P.entry[b := r], P.traces[b := tr], P.out[b := n])
  }

  /** What has been done to a block: its statements, one by one, and nothing else. */
  ghost predicate Done(g: Graph, nodes: seq<VNode>, v: Vals, o: nat, r: Vals, tr: NumberTrace, n: Node, alter: bool,
                       b: nat)
    requires b < |g|
  {
    var ss := g[b].stmts;
    && Handed(nodes, v) && OvalOk(nodes, g[b], v, o)
    && n == g[b].(stmts := n.stmts) && |n.stmts| == |ss| && AllPlain(n.stmts) && (!alter ==> n == g[b])
    && |tr| == |ss| + 1 && tr[0] == r && tr[|ss|] == v
    && (forall k {:trigger Stepped(nodes, tr, ss, n.stmts, alter, k)} ::
      0 <= k < |ss| ==> Stepped(nodes, tr, ss, n.stmts, alter, k))
    && (forall a {:trigger v[a]} :: 0 <= a < N_ATOMS && a !in DefsOf(ss) ==> v[a] == r[a])
    && (!alter ==> LocalFacts(g, nodes, v, b))
  }

  /** The block reads no atom of unknown number, and folding in it agrees with the machine. */
  ghost predicate Good(g: Graph, nodes: seq<VNode>, r: Vals, tr: NumberTrace, alter: bool, b: nat)
    requires b < |g|
  {
    ReadsIn(g[b].stmts, Known(r)) && (alter ==> ListAgrees(nodes, tr, g[b].stmts))
  }

  ghost predicate AllDone(g: Graph, nodes: seq<VNode>, P: Pass, alter: bool, S: set<nat>) {
    && Sized(P, |g|)
    && forall b {:trigger Done(g, nodes, P.val[b], P.oval[b], P.entry[b], P.traces[b], P.out[b], alter, b)} ::
         b in S && b < |g| ==> Done(g, nodes, P.val[b], P.oval[b], P.entry[b], P.traces[b], P.out[b], alter, b)
  }

  ghost predicate AllGood(g: Graph, nodes: seq<VNode>, P: Pass, alter: bool, S: set<nat>) {
    && Sized(P, |g|)
    && forall b {:trigger Good(g, nodes, P.entry[b], P.traces[b], alter, b)} ::
         b in S && b < |g| ==> Good(g, nodes, P.entry[b], P.traces[b], alter, b)
  }

  ghost predicate AllJoined(g: Graph, R: set<nat>, P: Pass, S: set<nat>) {
    && Sized(P, |g|)
    && forall b {:trigger Joined(g, R, P.val, P.entry[b], b)} ::
      b in S && b < |g| ==> Joined(g, R, P.val, P.entry[b], b)
  }

  ghost predicate AllRun(g: Graph, rank: Rank, root: nat, nodes: seq<VNode>, P: Pass, S: set<nat>) {
    && Sized(P, |g|)
    && forall b {:trigger RunFacts(g, rank, root, nodes, P.val[b], P.out[b], b)} ::
         b in S && b < |g| ==> RunFacts(g, rank, root, nodes, P.val[b], P.out[b], b)
  }

  lemma DoneGrows(g: Graph, n0: seq<VNode>, n1: seq<VNode>, v: Vals, o: nat, r: Vals, tr: NumberTrace, n: Node,
                  alter: bool, b: nat)
    requires b < |g| && Done(g, n0, v, o, r, tr, n, alter, b) && Grows(n0, n1)
    ensures Done(g, n1, v, o, r, tr, n, alter, b)
    ensures Good(g, n1, r, tr, alter, b) ==> Good(g, n0, r, tr, alter, b)
  {
    var ss := g[b].stmts;
    forall k | 0 <= k < |ss|
      ensures Stepped(n1, tr, ss, n.stmts, alter, k) && Agrees(n1, tr[k], ss[k]) == Agrees(n0, tr[k], ss[k]) {
      SteppedGrows(n0, n1, tr, ss, n.stmts, alter, k);
    }
    if !alter {
      LocalFactsGrow(g, n0, n1, v, b);
    }
  }

  lemma DoneMore(g: Graph, n0: seq<VNode>, P: Pass, alter: bool, S: set<nat>, n1: seq<VNode>,
                 b: nat, v: Vals, o: nat, r: Vals, tr: NumberTrace, n: Node)
    requires AllDone(g, n0, P, alter, S) && Grows(n0, n1) && b < |g| && b !in S && Done(g, n1, v, o, r, tr, n, alter, b)
    ensures AllDone(g, n1, Update(P, b, v, o, r, tr, n), alter, S + {b})
    ensures AllGood(g, n1, Update(P, b, v, o, r, tr, n), alter, S + {b}) ==>
      AllGood(g, n0, P, alter, S) && Good(g, n1, r, tr, alter, b)
  {
    var Q := Update(P, b, v, o, r, tr, n);
    forall c | c in S + {b} && c < |g|
      ensures Done(g, n1, Q.val[c], Q.oval[c], Q.entry[c], Q.traces[c], Q.out[c], alter, c)
      ensures c != b && Good(g, n1, Q.entry[c], Q.traces[c], alter, c) ==>
        Good(g, n0, P.entry[c], P.traces[c], alter, c) {
      if c != b {
        DoneGrows(g, n0, n1, P.val[c], P.oval[c], P.entry[c], P.traces[c], P.out[c], alter, c);
      }
    }
    if AllGood(g, n1, Q, alter, S + {b}) {
      assert Good(g, n1, Q.entry[b], Q.traces[b], alter, b);
      forall c | c in S && c < |g| ensures Good(g, n0, P.entry[c], P.traces[c], alter, c) {
        assert Good(g, n1, Q.entry[c], Q.traces[c], alter, c);
      }
    }
  }

  lemma RunMore(g: Graph, rank: Rank, root: nat, n0: seq<VNode>, P: Pass, alter: bool, S: set<nat>, n1: seq<VNode>,
                b: nat, v: Vals, o: nat, r: Vals, tr: NumberTrace, n: Node)
    requires AllDone(g, n0, P, alter, S) && AllRun(g, rank, root, n0, P, S) && Grows(n0, n1) && b < |g| && b !in S
    requires RunFacts(g, rank, root, n1, v, n, b)
    ensures AllRun(g, rank, root, n1, Update(P, b, v, o, r, tr, n), S + {b})
  {
    var Q := Update(P, b, v, o, r, tr, n);
    forall c | c in S + {b} && c < |g| ensures RunFacts(g, rank, root, n1, Q.val[c], Q.out[c], c) {
      if c != b {
        assert Done(g, n0, P.val[c], P.oval[c], P.entry[c], P.traces[c], P.out[c], alter, c);
        assert RunFacts(g, rank, root, n0, P.val[c], P.out[c], c);
        RunFactsGrow(g, rank, root, n0, n1, P.val[c], P.out[c], c);
      }
    }
  }

  lemma JoinedMore(g: Graph, rank: Rank, root: nat, P: Pass, S: set<nat>, b: nat, v: Vals, o: nat, r: Vals,
                   tr: NumberTrace, n: Node)
    requires WellFormed(g, rank) && root in rank && AllJoined(g, Reach(g, rank, root), P, S)
    requires Next(BlockNet(g, rank, root), S, b) && b < |g| && Joined(g, Reach(g, rank, root), P.val, r, b)
    ensures AllJoined(g, Reach(g, rank, root), Update(P, b, v, o, r, tr, n), S + {b})
  {
    var R, Q := Reach(g, rank, root), Update(P, b, v, o, r, tr, n);
    forall c | c in S + {b} && c < |g| ensures Joined(g, R, Q.val, Q.entry[c], c) {
      forall e | Into(g, R, e, c) ensures Pred(g, e) != b {
        NotBack(g, rank, root, S, b, c, e);
      }
      if c != b {
        assert Joined(g, R, P.val, P.entry[c], c);
      }
      forall a | 0 <= a < N_ATOMS ensures Brought(g, R, Q.val, c, a, Q.entry[c][a]) {
        BroughtKept(g, R, P.val, c, a, Q.entry[c][a], b, v);
      }
    }
  }

  /** Where the pass stopped: of the statements of block `b`, those before `k` have been
      executed symbolically, from the numbers on entry and the expressions then known, and
      have become `done`; the next one divides a constant by the constant 0. */
  datatype Stop = Stop(b: nat, k: nat, entry: Vals, first: seq<VNode>, before: Vals, nodes: seq<VNode>,
                       trace: NumberTrace, done: seq<Stmt>)

  /** The run from `st0` comes to statement `k` of block `b` in state `st1`. */
  ghost predicate Reaches(g: Graph, rank: Rank, root: nat, b: nat, k: nat, st0: Store, st1: Store, p: Packet)
    requires WellFormed(g, rank) && root in rank && b < |g| && k < |g[b].stmts|
  {
    Enters(g, rank, root, st0, p, b).Some? &&
      ExecList(g[b].stmts[..k], Enters(g, rank, root, st0, p, b).value, p) == Some(st1)
  }

  /** Every run that comes to a statement that is refused aborts there. */
  lemma StopAborts(g: Graph, rank: Rank, root: nat, x: Stop)
    requires WellFormed(g, rank) && root in rank && x.b < |g| && x.k < |g[x.b].stmts| && |x.done| == x.k
    requires ListNumbered(x.first, x.entry, g[x.b].stmts[..x.k], true, x.nodes, x.before, x.done, x.trace)
    requires ReadsIn(g[x.b].stmts[..x.k], Known(x.entry)) && ListAgrees(x.nodes, x.trace, g[x.b].stmts[..x.k])
    requires DividesByZero(x.nodes, x.before, g[x.b].stmts[x.k])
    requires forall i {:trigger x.nodes[i]} :: 0 <= i < |x.nodes| ==> ArgsBelow(x.nodes[i], i + 1)
    requires forall st0, st, p {:trigger Enters(g, rank, root, st0, p, x.b) == Some(st)} ::
      Enters(g, rank, root, st0, p, x.b) == Some(st) ==> Consistent(x.first, x.entry, Known(x.entry), st, p)
    ensures forall st0, st1, p {:trigger Reaches(g, rank, root, x.b, x.k, st0, st1, p)} ::
      Reaches(g, rank, root, x.b, x.k, st0, st1, p) ==> Exec(g[x.b].stmts[x.k], st1, p) == None
  {
    var pre := g[x.b].stmts[..x.k];
    forall st0, st1, p | Reaches(g, rank, root, x.b, x.k, st0, st1, p) ensures Exec(g[x.b].stmts[x.k], st1, p) == None {
      var st := Enters(g, rank, root, st0, p, x.b).value;
      assert Enters(g, rank, root, st0, p, x.b) == Some(st);
      var at := Point(Known(x.entry), st, p);
      assert ListSoundAt(x.first, x.entry, pre, true, x.nodes, x.before, x.done, at);
      forall a | a in Known(x.before) ensures a in at.D + DefsOf(pre) {
        assert x.before[a] != 0;
      }
      RefusedAborts(x.nodes, x.before, g[x.b].stmts[x.k], st1, p);
    }
  }

  // ----- one block after the other

  /** The blocks of `S` have been dealt with; if every one of them is good, what has been
      found out holds of every run. */
  ghost predicate Going(g: Graph, rank: Rank, root: nat, nodes: seq<VNode>, P: Pass, alter: bool, S: set<nat>) {
    && WellFormed(g, rank) && root in rank
    && AllDone(g, nodes, P, alter, S) && AllJoined(g, Reach(g, rank, root), P, S)
    && (AllGood(g, nodes, P, alter, S) ==> AllRun(g, rank, root, nodes, P, S))
  }

  /** The same, kept folded. */
  ghost predicate GoingFolded(g: Graph, rank: Rank, root: nat, nodes: seq<VNode>, P: Pass, alter: bool, S: set<nat>) {
    Sized(P, |g|) && forall u {:trigger Opened(u)} :: Opened(u) ==> Going(g, rank, root, nodes, P, alter, S)
  }

  lemma InEdgeSeen(g: Graph, rank: Rank, root: nat, S: set<nat>, e: nat, b: nat)
    requires WellFormed(g, rank) && root in rank && Next(BlockNet(g, rank, root), S, b)
    requires Into(g, Reach(g, rank, root), e, b)
    ensures Pred(g, e) in S
  {
    assert Linked(BlockNet(g, rank, root).links, Pred(g, e), b);
  }

  lemma RootHasNone(g: Graph, rank: Rank, root: nat, e: nat)
    requires WellFormed(g, rank) && root in rank
    ensures !Into(g, Reach(g, rank, root), e, root)
  {
    if Into(g, Reach(g, rank, root), e, root) {
      var u := Pred(g, e);
      ReachRanked(g, rank, root, u);
      HeightUnderRoot(g, rank, root, u);
      HeightFalls(g, rank, u);
      assert false;
    }
  }

  /** The numbers a run finds on entry to the next block. */
  lemma EntryRuns(g: Graph, rank: Rank, root: nat, nodes: seq<VNode>, P: Pass, S: set<nat>, r: Vals, b: nat)
    requires WellFormed(g, rank) && root in rank && b < |g| && b in Reach(g, rank, root)
    requires AllRun(g, rank, root, nodes, P, S) && Joined(g, Reach(g, rank, root), P.val, r, b)
    requires Next(BlockNet(g, rank, root), S, b)
    ensures forall st0, st, p
      {:trigger Enters(g, rank, root, st0, p, b) == Some(st)} {:trigger Passes(g, rank, root, b, st0, st, p)} ::
      Enters(g, rank, root, st0, p, b) == Some(st) ==> Consistent(nodes, r, Known(r), st, p)
  {
    forall st0, st, p | Enters(g, rank, root, st0, p, b) == Some(st) ensures Consistent(nodes, r, Known(r), st, p) {
      forall e | Into(g, Reach(g, rank, root), e, b) ensures Pred(g, e) in S && b != root {
        InEdgeSeen(g, rank, root, S, e, b);
        if b == root {
          RootHasNone(g, rank, root, e);
        }
      }
      EntryFacts(g, rank, root, nodes, P.val, P.out, S, r, b, st0, st, p);
    }
  }

  /** Folds that agree under a larger table agreed under the smaller one. */
  lemma AgreedBefore(n0: seq<VNode>, v0: Vals, ss: seq<Stmt>, alter: bool, n1: seq<VNode>, v1: Vals, ss': seq<Stmt>,
                     tr: NumberTrace, n2: seq<VNode>)
    requires ListNumbered(n0, v0, ss, alter, n1, v1, ss', tr) && Grows(n1, n2)
    ensures forall k {:trigger Stepped(n2, tr, ss, ss', alter, k)} ::
      0 <= k < |ss| ==> Stepped(n2, tr, ss, ss', alter, k)
    ensures ListAgrees(n2, tr, ss) ==> ListAgrees(n1, tr, ss)
  {
    forall k | 0 <= k < |ss| ensures Stepped(n2, tr, ss, ss', alter, k) &&
      Agrees(n2, tr[k], ss[k]) == Agrees(n1, tr[k], ss[k]) {
      assert Stepped(n1, tr, ss, ss', alter, k);
      SteppedGrows(n1, n2, tr, ss, ss', alter, k);
    }
  }

  lemma DoneNow(g: Graph, n0: seq<VNode>, alter: bool, b: nat, r: Vals, n1: seq<VNode>, v: Vals, ss': seq<Stmt>,
                tr: NumberTrace, n2: seq<VNode>, o: nat)
    requires b < |g| && ListNumbered(n0, r, g[b].stmts, alter, n1, v, ss', tr) && Grows(n1, n2) &&
      OvalOk(n2, g[b], v, o)
    ensures Done(g, n2, v, o, r, tr, g[b].(stmts := ss'), alter, b)
  {
    AgreedBefore(n0, r, g[b].stmts, alter, n1, v, ss', tr, n2);
    if !alter {
      LocalFactsOf(g, n0, r, n1, v, tr, b);
      LocalFactsGrow(g, n1, n2, v, b);
    }
  }

  lemma NothingDone(g: Graph, rank: Rank, root: nat, nodes: seq<VNode>, P: Pass, alter: bool)
    requires WellFormed(g, rank) && root in rank && Sized(P, |g|)
    ensures GoingFolded(g, rank, root, nodes, P, alter, {})
  {
  }

  /** A block has been executed; kept folded. */
  ghost predicate Worked(n0: seq<VNode>, r: Vals, n: Node, alter: bool, n1: seq<VNode>, v: Vals, ss': seq<Stmt>,
                         tr: NumberTrace, n2: seq<VNode>, o: nat) {
    forall u {:trigger Opened(u)} :: Opened(u) ==>
      ListNumbered(n0, r, n.stmts, alter, n1, v, ss', tr) && Grows(n1, n2) && OvalOk(n2, n, v, o)
  }

  /** One block more. */
  lemma GoingOn(g: Graph, rank: Rank, root: nat, n0: seq<VNode>, P: Pass, alter: bool, S: set<nat>, b: nat, r: Vals,
                n1: seq<VNode>, v: Vals, ss': seq<Stmt>, tr: NumberTrace, n2: seq<VNode>, o: nat)
    requires WellFormed(g, rank) && root in rank && GoingFolded(g, rank, root, n0, P, alter, S) && b < |g| &&
      b in Reach(g, rank, root) && b !in S
    requires Next(BlockNet(g, rank, root), S, b) && Joined(g, Reach(g, rank, root), P.val, r, b)
    requires Worked(n0, r, g[b], alter, n1, v, ss', tr, n2, o)
    ensures GoingFolded(g, rank, root, n2, Update(P, b, v, o, r, tr, g[b].(stmts := ss')), alter, S + {b})
  {
    assert Opened(Key);
    var n := g[b].(stmts := ss');
    var Q := Update(P, b, v, o, r, tr, n);
    GrowsTrans(n0, n1, n2);
    DoneNow(g, n0, alter, b, r, n1, v, ss', tr, n2, o);
    DoneMore(g, n0, P, alter, S, n2, b, v, o, r, tr, n);
    JoinedMore(g, rank, root, P, S, b, v, o, r, tr, n);
    if AllGood(g, n2, Q, alter, S + {b}) {
      AgreedBefore(n0, r, g[b].stmts, alter, n1, v, ss', tr, n2);
      EntryRuns(g, rank, root, n0, P, S, r, b);
      RunFactsOf(g, rank, root, n0, r, alter, n1, v, ss', tr, b);
      RunFactsGrow(g, rank, root, n1, n2, v, n, b);
      RunMore(g, rank, root, n0, P, alter, S, n2, b, v, o, r, tr, n);
    }
  }

  /** The execution of a block has stopped; kept folded. */
  ghost predicate Halted(n0: seq<VNode>, r: Vals, n: Node, mid: seq<VNode>, v: Vals, ss': seq<Stmt>, tr: NumberTrace) {
    forall u {:trigger Opened(u)} :: Opened(u) ==>
      && Refused(n0, r, n.stmts, mid, v, ss', tr)
      && forall i {:trigger mid[i]} :: 0 <= i < |mid| ==> ArgsBelow(mid[i], i + 1)
  }

  /** The blocks of `S` have been dealt with and `x.b` is next. Its statements before `x.k`
      have been executed from what its in-edges bring, and the next one divides a constant
      by the constant 0. If no atom of unknown number has been read and folding has agreed
      so far, every run that comes to it aborts there. */
  ghost predicate StoppedAt(g: Graph, rank: Rank, root: nat, P: Pass, S: set<nat>, x: Stop) {
    && Going(g, rank, root, x.first, P, true, S) && x.b < |g| && x.b in Reach(g, rank, root)
    && Next(BlockNet(g, rank, root), S, x.b) && Joined(g, Reach(g, rank, root), P.val, x.entry, x.b)
    && |x.done| == x.k && Refused(x.first, x.entry, g[x.b].stmts, x.nodes, x.before, x.done, x.trace)
    && (AllGood(g, x.nodes, P, true, S) && ReadsIn(g[x.b].stmts[..x.k], Known(x.entry)) &&
        ListAgrees(x.nodes, x.trace, g[x.b].stmts[..x.k]) ==>
          forall st0, st1, p {:trigger Reaches(g, rank, root, x.b, x.k, st0, st1, p)} ::
            Reaches(g, rank, root, x.b, x.k, st0, st1, p) ==> Exec(g[x.b].stmts[x.k], st1, p) == None)
  }

  /** Then the pass stops. */
  lemma Stopping(g: Graph, rank: Rank, root: nat, P: Pass, S: set<nat>, x: Stop)
    requires WellFormed(g, rank) && root in rank && GoingFolded(g, rank, root, x.first, P, true, S)
    requires x.b < |g| && x.b in Reach(g, rank, root)
    requires Next(BlockNet(g, rank, root), S, x.b) && Joined(g, Reach(g, rank, root), P.val, x.entry, x.b)
    requires |x.done| == x.k && Halted(x.first, x.entry, g[x.b], x.nodes, x.before, x.done, x.trace)
    ensures StoppedAt(g, rank, root, P, S, x)
  {
    assert Opened(Key);
    if AllGood(g, x.nodes, P, true, S) && ReadsIn(g[x.b].stmts[..x.k], Known(x.entry)) &&
       ListAgrees(x.nodes, x.trace, g[x.b].stmts[..x.k]) {
      forall c | c in S && c < |g| ensures Good(g, x.first, P.entry[c], P.traces[c], true, c) {
        assert Done(g, x.first, P.val[c], P.oval[c], P.entry[c], P.traces[c], P.out[c], true, c);
        DoneGrows(g, x.first, x.nodes, P.val[c], P.oval[c], P.entry[c], P.traces[c], P.out[c], true, c);
        assert Good(g, x.nodes, P.entry[c], P.traces[c], true, c);
      }
      EntryRuns(g, rank, root, x.first, P, S, x.entry, x.b);
      StopAborts(g, rank, root, x);
    }
  }

  // ----- what later passes need

  /** The numbers on exit from a closed block, and that of its branch, are right whatever
      the block is entered with. */
  ghost predicate ExitedAt(g: Graph, nodes: seq<VNode>, val: seq<Vals>, oval: seq<nat>, b: nat)
    requires b < |g| == |val| == |oval|
  {
    LocalFacts(g, nodes, val[b], b) && OvalOk(nodes, g[b], val[b], oval[b])
  }

  ghost predicate Exited(g: Graph, nodes: seq<VNode>, val: seq<Vals>, oval: seq<nat>, S: set<nat>) {
    && |val| == |oval| == |g|
    && forall b {:trigger ExitedAt(g, nodes, val, oval, b)} :: b in S && b < |g| ==> ExitedAt(g, nodes, val, oval, b)
  }

  lemma DoneExited(g: Graph, nodes: seq<VNode>, P: Pass, S: set<nat>)
    requires AllDone(g, nodes, P, false, S)
    ensures Exited(g, nodes, P.val, P.oval, S)
  {
    forall b | b in S && b < |g| ensures ExitedAt(g, nodes, P.val, P.oval, b) {
      assert Done(g, nodes, P.val[b], P.oval[b], P.entry[b], P.traces[b], P.out[b], false, b);
    }
  }

  /** Without rewriting, a graph of closed blocks is good throughout, so its numbers are
      true of every run. */
  lemma ClosedTrue(g: Graph, rank: Rank, root: nat, nodes: seq<VNode>, P: Pass)
    requires WellFormed(g, rank) && root in rank && ClosedGraph(g, Reach(g, rank, root))
    requires Going(g, rank, root, nodes, P, false, Reach(g, rank, root))
    ensures AllRun(g, rank, root, nodes, P, Reach(g, rank, root))
  {
    var R := Reach(g, rank, root);
    forall b | b in R && b < |g| ensures Good(g, nodes, P.entry[b], P.traces[b], false, b) {
      assert ClosedBlock(g[b]);
      ClosedReads(g[b].stmts, Known(P.entry[b]));
    }
  }

  // ----- room in the tables

  lemma RoomFor(g: Graph, R: set<nat>, S: set<nat>, b: nat)
    requires S <= R && b in R && b < |g| && b !in S
    ensures Spent(g, S) + Cost(g[b]) == Spent(g, S + {b}) && Spent(g, S + {b}) + 1 < MaxVal(g, R)
  {
    SpentMore(g, S, b);
    SpentLeq(g, S + {b}, R);
    SpentUnderMaxVal(g, R, b);
  }

  lemma OnlyLeavesLeft(g: Graph, rank: Rank, root: nat, level: seq<nat>, rows: Rows, seen: set<nat>,
                       inEdges: seq<seq<nat>>)
    requires LevelsOf(g, rank, root, level, rows) && |rows| > 0 && Swept(g, rank, root, rows, seen, 0, 0)
    requires InEdges(g, seen, inEdges)
    ensures InEdges(g, Reach(g, rank, root), inEdges)
  {
    var R := Reach(g, rank, root);
    assert rows[0][..0] == [] && Elems([]) == {};
    forall x | 0 <= x < |g| ensures EdgesListed(g, R, inEdges[x], x) {
      assert EdgesListed(g, seen, inEdges[x], x);
      forall e ensures Into(g, R, e, x) <==> Into(g, seen, e, x) {
        var u := Pred(g, e);
        if u in R && u < |g| {
          ReachRanked(g, rank, root, u);
          LeavesAtLevelZero(g, rank, u);
        }
      }
    }
  }

  // ----- the pass over the graph

  class BlockValues {
    const g: Graph
    ghost const rank: Rank
    const level: seq<nat>
    const levels: Rows
    const t: ValTable
    var inEdges: seq<seq<nat>>
    var val: seq<Vals>
    var oval: seq<nat>
    var out: Graph
    ghost var entry: seq<Vals>
    ghost var traces: seq<NumberTrace>
    ghost var stop: Stop

    constructor (g: Graph, ghost rank: Rank, level: seq<nat>, levels: Rows, t: ValTable)
      ensures this.g == g && this.rank == rank && this.level == level && this.levels == levels && this.t == t
    {
      this.g, this.rank, this.level, this.levels, this.t := g, rank, level, levels, t;
      inEdges, val, oval, out := [], [], [], g;
      entry, traces := [], [];
      stop := Stop(0, 0, UNKNOWN, [], UNKNOWN, [], [], []);
    }

    ghost function State(): Pass
      reads this
    {
      Pass(val, oval, entry, traces, out)
    }

    // ----- predecessors

    /** Puts every edge on the list of the block it leads to, level by level; leaves have
        none. */
    method FindInedges(root: nat)
      requires LevelsOf(g, rank, root, level, levels)
      modifies this`inEdges
      ensures InEdges(g, Reach(g, rank, root), inEdges)
    {
      inEdges := seq(|g|, x => []);
      ghost var seen: set<nat> := {};
      forall x | 0 <= x < |g| ensures EdgesListed(g, {}, inEdges[x], x) {
        assert Elems([]) == {};
      }
      SweepStart(g, rank, root, level, levels);
      var i := level[root];
      while i > 0
        invariant 0 <= i < |levels| && Swept(g, rank, root, levels, seen, i, 0)
        invariant InEdges(g, seen, inEdges)
      {
        seen := LinkLevel(root, i, seen);
        RowDone(g, rank, root, level, levels, seen, i);
        i := i - 1;
      }
      OnlyLeavesLeft(g, rank, root, level, levels, seen, inEdges);
    }

    method LinkLevel(root: nat, i: nat, ghost seen0: set<nat>) returns (ghost seen: set<nat>)
      requires LevelsOf(g, rank, root, level, levels) && 0 < i < |levels| && Swept(g, rank, root, levels, seen0, i, 0)
      requires InEdges(g, seen0, inEdges)
      modifies this`inEdges
      ensures Swept(g, rank, root, levels, seen, i, |levels[i]|) && InEdges(g, seen, inEdges)
    {
      seen := seen0;
      var k := 0;
      while k < |levels[i]|
        invariant k <= |levels[i]| && Swept(g, rank, root, levels, seen, i, k) && InEdges(g, seen, inEdges)
      {
        var b := levels[i][k];
        SweepStep(g, rank, root, level, levels, seen, i, k);
        LeavesAtLevelZero(g, rank, b);
        LinkBlock(g, seen, inEdges, b);
        inEdges := Linking(Linking(inEdges, b, g[b].jt), |g| + b, g[b].jf);
        seen := seen + {b};
        k := k + 1;
      }
    }

    // ----- one block

    ghost predicate Base(root: nat)
      reads this`inEdges
    {
      && LevelsOf(g, rank, root, level, levels)
      && InEdges(g, Reach(g, rank, root), inEdges) && t.maxval >= MaxVal(g, Reach(g, rank, root))
    }

    /** The blocks of `S` have been dealt with and the others are as they were; kept
        folded. */
    ghost predicate Underway(root: nat, S: set<nat>, alter: bool)
      reads this, t
    {
      forall u {:trigger Opened(u)} :: Opened(u) ==>
        && Base(root) && t.Valid() && t.curval <= Spent(g, S) && S <= Reach(g, rank, root)
        && GoingFolded(g, rank, root, t.nodes, State(), alter, S)
        && forall b {:trigger out[b]} :: 0 <= b < |g| && b !in S ==> out[b] == g[b]
    }

    /** Block `b` is the next. */
    ghost predicate NextBlock(b: nat, root: nat, S: set<nat>) {
      && WellFormed(g, rank) && root in rank && b in Reach(g, rank, root) && b < |g| && b !in S
      && Next(BlockNet(g, rank, root), S, b)
    }

    /** What the predecessors agree on. */
    method Inherit(b: nat, ghost root: nat, ghost S: set<nat>, ghost alter: bool) returns (r: Vals)
      requires Underway(root, S, alter) && NextBlock(b, root, S)
      ensures Handed(t.nodes, r) && |val| == |g| && Joined(g, Reach(g, rank, root), val, r, b)
    {
      assert Opened(Key);
      var list := inEdges[b];
      ghost var R := Reach(g, rank, root);
      assert EdgesListed(g, R, list, b);
      forall k | 0 <= k < |list|
        ensures Into(g, R, list[k], b) && 0 <= Pred(g, list[k]) < |g| && Pred(g, list[k]) in S {
        ElemsIn(list, list[k]);
        InEdgeSeen(g, rank, root, S, list[k], b);
      }
      var preds: seq<nat> := seq(|list|, k requires 0 <= k < |list| => Pred(g, list[k]));
      r := JoinPreds(val, preds);
      forall a | 0 <= a < N_ATOMS ensures r[a] <= |t.nodes| {
        assert JoinedAt(val, preds, a, r[a]);
        if r[a] != 0 {
          ghost var u := preds[0];
          assert val[u][a] == r[a];
          assert Done(g, t.nodes, val[u], oval[u], entry[u], traces[u], out[u], alter, u);
        }
      }
      forall a | 0 <= a < N_ATOMS ensures Brought(g, R, val, b, a, r[a]) {
        assert JoinedAt(val, preds, a, r[a]);
        BroughtByPreds(g, R, val, list, preds, b, a, r[a]);
      }
    }

    /** The number of what the branch compares with. */
    method BranchValue(b: nat, v: Vals) returns (o: nat)
      requires b < |g| && t.Valid() && t.curval + 1 < t.maxval && Handed(t.nodes, v)
      modifies t
      ensures t.Valid() && Grows(old(t.nodes), t.nodes) && |t.nodes| <= |old(t.nodes)| + 1
      ensures OvalOk(t.nodes, g[b], v, o)
    {
      if g[b].s.code.JmpX? {
        o := v[X];
      } else {
        o := t.F(K(g[b].s.k));
      }
    }

    /** Executes the statements of a block, on request rewriting them, and numbers what
        its branch compares with. */
    method Execute(b: nat, r: Vals, alter: bool)
      returns (ok: bool, ss: seq<Stmt>, v: Vals, o: nat, ghost tr: NumberTrace, ghost mid: seq<VNode>)
      requires WellFormed(g, rank) && b in rank && b < |g| && t.Valid() && t.curval + Cost(g[b]) + 1 < t.maxval &&
        Handed(t.nodes, r)
      modifies t
      ensures t.Valid() && Grows(old(t.nodes), t.nodes) && Grows(mid, t.nodes)
      ensures ok ==> t.curval <= old(t.curval) + Cost(g[b])
      ensures ok ==> Worked(old(t.nodes), r, g[b], alter, mid, v, ss, tr, t.nodes, o)
      ensures !ok ==> alter && Halted(old(t.nodes), r, g[b], mid, v, ss, tr)
    {
      o := 0;
      assert NodeOk(g, rank, b);
      ok, ss, v, tr, mid := OptList(t, g[b].stmts, r, alter);
      if ok {
        mid := t.nodes;
        o := BranchValue(b, v);
        GrowsTrans(old(t.nodes), mid, t.nodes);
      } else {
        forall i | 0 <= i < |mid| ensures ArgsBelow(mid[i], i + 1) {
          assert mid[i] == t.nodes[i];
        }
      }
    }

    lemma Unfold(b: nat, root: nat, S: set<nat>, alter: bool)
      requires Underway(root, S, alter) && NextBlock(b, root, S)
      ensures Base(root) && t.Valid() && b in rank && S + {b} <= Reach(g, rank, root)
      ensures t.curval + Cost(g[b]) == t.curval - Spent(g, S) + Spent(g, S + {b}) <= Spent(g, S + {b}) < t.maxval - 1
      ensures GoingFolded(g, rank, root, t.nodes, State(), alter, S)
      ensures forall c {:trigger out[c]} :: 0 <= c < |g| && c !in S ==> out[c] == g[c]
    {
      assert Opened(Key);
      ReachRanked(g, rank, root, b);
      RoomFor(g, Reach(g, rank, root), S, b);
    }

    /** What is found out by executing a block. */
    ghost predicate Found(b: nat, root: nat, S: set<nat>, alter: bool, v: Vals, o: nat, r: Vals, tr: NumberTrace,
                          n: Node)
      reads this, t
    {
      && Base(root) && t.Valid() && t.curval <= Spent(g, S + {b}) && S + {b} <= Reach(g, rank, root)
      && Sized(State(), |g|) && b < |g| &&
        GoingFolded(g, rank, root, t.nodes, Update(State(), b, v, o, r, tr, n), alter, S + {b})
      && forall c {:trigger out[c]} :: 0 <= c < |g| && c !in S ==> out[c] == g[c]
    }

    /** Executes a block, starting from what its predecessors agree on. */
    method Discover(b: nat, ghost root: nat, ghost S: set<nat>, alter: bool, r: Vals)
      returns (ok: bool, ss: seq<Stmt>, v: Vals, o: nat, ghost tr: NumberTrace)
      requires Underway(root, S, alter) && NextBlock(b, root, S)
      requires Handed(t.nodes, r) && |val| == |g| && Joined(g, Reach(g, rank, root), val, r, b)
      modifies this`stop, t
      ensures ok ==> Found(b, root, S, alter, v, o, r, tr, g[b].(stmts := ss))
      ensures !ok ==> alter && StoppedAt(g, rank, root, State(), S, stop)
    {
      Unfold(b, root, S, alter);
      ghost var n0, P, mid := t.nodes, State(), t.nodes;
      ok, ss, v, o, tr, mid := Execute(b, r, alter);
      if ok {
        GoingOn(g, rank, root, n0, P, alter, S, b, r, mid, v, ss, tr, t.nodes, o);
      } else {
        stop := Stop(b, |ss|, r, n0, v, mid, tr, ss);
        Stopping(g, rank, root, P, S, stop);
      }
    }

    /** Deals with a block whose predecessors have been dealt with. */
    method OptBlk(b: nat, ghost root: nat, ghost S: set<nat>, alter: bool) returns (ok: bool)
      requires Underway(root, S, alter) && NextBlock(b, root, S)
      modifies this`val, this`oval, this`out, this`entry, this`traces, this`stop, t
      ensures ok ==> Underway(root, S + {b}, alter)
      ensures !ok ==> alter && StoppedAt(g, rank, root, State(), S, stop)
    {
      var r := Inherit(b, root, S, alter);
      var ss, v, o;
      ghost var tr;
      ok, ss, v, o, tr := Discover(b, root, S, alter, r);
      if ok {
        Record(b, root, S, alter, v, o, r, tr, g[b].(stmts := ss));
      }
    }

    method Record(b: nat, ghost root: nat, ghost S: set<nat>, ghost alter: bool, v: Vals, o: nat, ghost r: Vals,
                  ghost tr: NumberTrace, n: Node)
      requires Found(b, root, S, alter, v, o, r, tr, n)
      modifies this`val, this`oval, this`out, this`entry, this`traces
      ensures Underway(root, S + {b}, alter)
    {
      assert Opened(Key);
      val, oval, out := val[b := v], oval[b := o], out[b := n];
      entry, traces := entry[b := r], traces[b := tr];
      assert State() == Update(old(State()), b, v, o, r, tr, n);
    }

    // ----- all blocks

    /** The pass, from the root's level down. It stops only where a constant is to be
        divided by the constant 0, and without rewriting never. If it runs to its end,
        every reachable block has been dealt with, and if all of them are good, the
        numbers tell the truth about every run, which does in the rewritten blocks what
        it did in the old ones. The tables, sized once for three numbers a statement and
        three a block, have not overflowed. */
    method OptBlks(root: nat, alter: bool) returns (ok: bool, ghost seen: set<nat>)
      requires LevelsOf(g, rank, root, level, levels)
      requires t.Valid() && t.nodes == [] && t.maxval >= MaxVal(g, Reach(g, rank, root))
      modifies this`inEdges, this`val, this`oval, this`out, this`entry, this`traces, this`stop, t
      ensures InEdges(g, Reach(g, rank, root), inEdges)
      ensures ok ==> t.Valid() && t.curval <= Spent(g, Reach(g, rank, root))
      ensures ok ==> Going(g, rank, root, t.nodes, State(), alter, Reach(g, rank, root))
      ensures ok ==> forall b {:trigger out[b]} :: 0 <= b < |g| && b !in Reach(g, rank, root) ==> out[b] == g[b]
      ensures !ok ==> alter && seen <= Reach(g, rank, root) && StoppedAt(g, rank, root, State(), seen, stop)
    {
      ok, seen := true, {};
      Start(root, alter);
      SweepStart(g, rank, root, level, levels);
      var i := level[root] + 1;
      while i > 0
        invariant 0 <= i <= |levels| && Underway(root, seen, alter) && Base(root)
        invariant i > 0 ==> Swept(g, rank, root, levels, seen, i - 1, 0)
        invariant i == 0 ==> seen == Reach(g, rank, root)
      {
        i := i - 1;
        ok, seen := OptLevel(root, i, seen, alter);
        if !ok {
          return;
        }
        RowDone(g, rank, root, level, levels, seen, i);
      }
      assert Opened(Key);
    }

    method Start(root: nat, ghost alter: bool)
      requires LevelsOf(g, rank, root, level, levels)
      requires t.Valid() && t.nodes == [] && t.maxval >= MaxVal(g, Reach(g, rank, root))
      modifies this`inEdges, this`val, this`oval, this`out, this`entry, this`traces
      ensures Base(root) && Underway(root, {}, alter)
    {
      val, oval, out := seq(|g|, b => UNKNOWN), seq(|g|, b => 0), g;
      entry, traces := seq(|g|, b => UNKNOWN), seq(|g|, b => []);
      FindInedges(root);
      NothingDone(g, rank, root, t.nodes, State(), alter);
    }

    method OptLevel(root: nat, i: nat, ghost seen0: set<nat>, alter: bool) returns (ok: bool, ghost seen: set<nat>)
      requires i < |levels| && Base(root) && Underway(root, seen0, alter) && Swept(g, rank, root, levels, seen0, i, 0)
      modifies this`val, this`oval, this`out, this`entry, this`traces, this`stop, t
      ensures ok ==> Underway(root, seen, alter) && Swept(g, rank, root, levels, seen, i, |levels[i]|)
      ensures !ok ==> alter && seen <= Reach(g, rank, root) && StoppedAt(g, rank, root, State(), seen, stop)
    {
      ok, seen := true, seen0;
      var k := 0;
      while k < |levels[i]|
        invariant 0 <= k <= |levels[i]| && Underway(root, seen, alter) && Swept(g, rank, root, levels, seen, i, k)
      {
        var b := levels[i][k];
        SweepStep(g, rank, root, level, levels, seen, i, k);
        SweepTo(g, rank, root, level, levels, seen, i, k);
        assert seen <= Reach(g, rank, root) by { assert Opened(Key); }
        ok := OptBlk(b, root, seen, alter);
        if !ok {
          return;
        }
        seen := seen + {b};
        k := k + 1;
      }
    }
  }
}
