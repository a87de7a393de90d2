/** Filters on which the optimizer does not keep what it promises. */
module Shortfalls {
  import opened Bpf
  import opened Flow
  import opened Lists
  import opened Layout
  import opened Dag
  import opened Sweep
  import opened PathFacts
  import opened Atoms
  import opened Constancy
  import opened Values
  import opened Numbering
  import opened Runs
  import opened ValueSweep
  import opened Traces
  import opened Fragment
  import opened Language
  import opened Arithmetic
  import opened Seal
  import Compiler
  import Pullup
  import Optimizer
  import opened Rewriting

  // ----- the code of comparisons of bytes

  function EtherByte(i: Word): Arith {
    Index(QLink, Imm(i), 1)
  }

  /** The code of `ether[i]`, its offset in register `r`, its value in register `n`. */
  function ByteCode(i: Word, r: nat, n: nat): seq<Stmt>
    requires r < MEMWORDS && n < MEMWORDS
  {
    [Stmt(LdImm, i), Stmt(St, r)] + ItemCode(QLink, r, ByteSize, ETHERNET) + [Stmt(St, n)]
  }

  function ConstCode(k: Word, r: nat): seq<Stmt>
    requires r < MEMWORDS
  {
    [Stmt(LdImm, k), Stmt(St, r)]
  }

  /** The block that compares two values in registers. */
  function TestNode(op: JmpOp, s: seq<Stmt>, rl: nat, rr: nat, jt: int, jf: int): Node
    requires rl < MEMWORDS && rr < MEMWORDS
  {
    Node(s + Fetch(op, rl, rr), Stmt(Branch(op), 0), jt, jf)
  }

  lemma ByteComputes(i: Word, r: nat, n: nat, used: Used)
    requires r < MEMWORDS && n < MEMWORDS && !used[r] && !used[n]
    ensures Computes(ByteCode(i, r, n), n, used, EtherByte(i), ETHERNET)
  {
    LoadiComputes(i, r, used, ETHERNET);
    LoadComputes([Stmt(LdImm, i), Stmt(St, r)], r, used, QLink, Imm(i), 1, ETHERNET, n);
  }

  /** Which way such a block goes. */
  function Way(o: Outcome): Option<bool> {
    match o
    case Accept => Some(true)
    case Reject => Some(false)
    case Abort => None
  }

  /** A block of the kind the generator makes, which leads to blocks `jt` and `jf`; its
      statements are kept folded. */
  ghost predicate GoodTest(n: Node, jt: int, jf: int) {
    !n.Leaf() && n.jt == jt && n.jf == jf && forall u {:trigger Opened(u)} :: Opened(u) ==> Made(n)
  }

  ghost predicate Made(n: Node) {
    ClosedBlock(n) && TwoWay(n.s) && forall k {:trigger n.stmts[k]} :: 0 <= k < |n.stmts| ==> Plain(n.stmts[k])
  }

  lemma TestGoes(op: JmpOp, s: seq<Stmt>, rl: nat, rr: nat, used: Used, l: Arith, r: Arith,
                 jt: int, jf: int, p: Packet)
    requires ComputesBoth(s, rl, rr, used, l, r, ETHERNET)
    ensures
      var n := TestNode(op, s, rl, rr, jt, jf);
      Goes(n, p) == Way(CompareMeaning(op, l, r, ETHERNET, p)) && GoodTest(n, jt, jf)
  {
    RelationBlock(s, rl, rr, op);
    RelationTests(s, rl, rr, used, op, l, r, ETHERNET, ZERO, p);
    assert CompareSem(op, l, r, ETHERNET)(p) == CompareMeaning(op, l, r, ETHERNET, p);
  }

  // ----- a test pulled up in front of one that would have decided

  /** `ether[0] > 5 or ether[1] > 5 or ether[0] > ether[100]` */
  const THREE: Filter :=
    Either(Either(Relation(Jgt, EtherByte(0), Imm(5), false), Relation(Jgt, EtherByte(1), Imm(5), false)),
           Relation(Jgt, EtherByte(0), EtherByte(100), false))

  const SNAP: Word := 96

  function First(jf: int): Node {
    TestNode(Jgt, ByteCode(0, 0, 1) + ConstCode(5, 2), 1, 2, 3, jf)
  }

  function Second(jf: int): Node {
    TestNode(Jgt, ByteCode(1, 2, 3) + ConstCode(5, 4), 3, 4, 3, jf)
  }

  function Third(jf: int): Node {
    TestNode(Jgt, ByteCode(0, 4, 5) + ByteCode(100, 6, 7), 5, 7, 3, jf)
  }

  function Leaf(k: Word): Node {
    Node([], Stmt(RetK, k), -1, -1)
  }

  /** Its blocks, as the generator makes them. */
  function ThreeGraph(): Graph {
    [First(1), Second(2), Third(4), Leaf(SNAP), Leaf(0)]
  }

  ghost function ThreeRank(): Rank {
    map[0 := 3, 1 := 2, 2 := 1, 3 := 0, 4 := 0]
  }

  /** Three tests in a row, which share an exit. */
  ghost predicate ThreeShape(g: Graph, rank: Rank) {
    && |g| == 5 && GoodTest(g[0], 3, 1) && GoodTest(g[1], 3, 2) && GoodTest(g[2], 3, 4) && g[3] == Leaf(SNAP) &&
      g[4] == Leaf(0)
    && (forall i :: i in rank <==> 0 <= i < 5) && rank[0] == 3 && rank[1] == 2 && rank[2] == 1 &&
      rank[3] == rank[4] == 0
  }

  const NONE_USED: Used := [false, false, false, false, false, false, false, false, false, false, false, false, false,
                            false, false, false]

  lemma FirstGoes(jf: int, p: Packet)
    ensures Goes(First(jf), p) == Way(CompareMeaning(Jgt, EtherByte(0), Imm(5), ETHERNET, p))
    ensures GoodTest(First(jf), 3, jf)
  {
    ByteComputes(0, 0, 1, NONE_USED);
    LoadiComputes(5, 2, NONE_USED[1 := true], ETHERNET);
    TwoOperands(ByteCode(0, 0, 1), 1, ConstCode(5, 2), 2, NONE_USED, EtherByte(0), Imm(5), ETHERNET);
    TestGoes(Jgt, ByteCode(0, 0, 1) + ConstCode(5, 2), 1, 2, NONE_USED, EtherByte(0), Imm(5), 3, jf, p);
  }

  lemma SecondGoes(jf: int, p: Packet)
    ensures Goes(Second(jf), p) == Way(CompareMeaning(Jgt, EtherByte(1), Imm(5), ETHERNET, p))
    ensures GoodTest(Second(jf), 3, jf)
  {
    ByteComputes(1, 2, 3, NONE_USED);
    LoadiComputes(5, 4, NONE_USED[3 := true], ETHERNET);
    TwoOperands(ByteCode(1, 2, 3), 3, ConstCode(5, 4), 4, NONE_USED, EtherByte(1), Imm(5), ETHERNET);
    TestGoes(Jgt, ByteCode(1, 2, 3) + ConstCode(5, 4), 3, 4, NONE_USED, EtherByte(1), Imm(5), 3, jf, p);
  }

  lemma ThirdGoes(jf: int, p: Packet)
    ensures Goes(Third(jf), p) == Way(CompareMeaning(Jgt, EtherByte(0), EtherByte(100), ETHERNET, p))
    ensures GoodTest(Third(jf), 3, jf)
  {
    ByteComputes(0, 4, 5, NONE_USED);
    ByteComputes(100, 6, 7, NONE_USED[5 := true]);
    TwoOperands(ByteCode(0, 4, 5), 5, ByteCode(100, 6, 7), 7, NONE_USED, EtherByte(0), EtherByte(100), ETHERNET);
    TestGoes(Jgt, ByteCode(0, 4, 5) + ByteCode(100, 6, 7), 5, 7, NONE_USED, EtherByte(0), EtherByte(100), 3, jf, p);
  }

  lemma ThreeWf(g: Graph, rank: Rank)
    requires ThreeShape(g, rank)
    ensures WellFormed(g, rank)
  {
    forall i | 0 <= i < |g| && i in rank ensures NodeOk(g, rank, i) {
      if i < 3 {
        TestOk(g, rank, i, 3, if i == 0 then 1 else if i == 1 then 2 else 4);
      }
    }
  }

  lemma TestOk(g: Graph, rank: Rank, i: nat, jt: int, jf: int)
    requires i < |g| && i in rank && GoodTest(g[i], jt, jf) && 0 <= jt < |g| && jt in rank && rank[jt] < rank[i]
    requires 0 <= jf < |g| && jf in rank && rank[jf] < rank[i]
    ensures NodeOk(g, rank, i)
  {
    TestClosed(g[i], jt, jf);
  }

  lemma ThreeReach(g: Graph, rank: Rank)
    requires ThreeShape(g, rank) && WellFormed(g, rank)
    ensures Reach(g, rank, 0) == {0, 1, 2, 3, 4}
    ensures Reach(g, rank, 1) == {1, 2, 3, 4} && Reach(g, rank, 2) == {2, 3, 4}
  {
    ReachStep(g, rank, 3);
    ReachStep(g, rank, 4);
    ReachStep(g, rank, 2);
    ReachStep(g, rank, 1);
    ReachStep(g, rank, 0);
  }

  lemma ReachStep(g: Graph, rank: Rank, b: nat)
    requires WellFormed(g, rank) && b in rank && b < |g|
    ensures !g[b].Leaf() ==> g[b].jt in rank && g[b].jf in rank
    ensures Reach(g, rank, b) == if g[b].Leaf() then {b} else {b} + Reach(g, rank, g[b].jt) + Reach(g, rank, g[b].jf)
  {
    assert NodeOk(g, rank, b);
  }

  lemma ThreeClosed(g: Graph, rank: Rank, S: set<nat>)
    requires ThreeShape(g, rank)
    ensures ClosedGraph(g, S)
  {
    forall b: nat | b < |g| ensures ClosedBlock(g[b]) {
      BlockClosed(g, rank, b);
    }
  }

  lemma BlockClosed(g: Graph, rank: Rank, b: nat)
    requires ThreeShape(g, rank) && b < 5
    ensures ClosedBlock(g[b])
  {
    if b < 3 {
      assert GoodTest(g[b], 3, if b == 0 then 1 else if b == 1 then 2 else 4);
      TestClosed(g[b], 3, if b == 0 then 1 else if b == 1 then 2 else 4);
    }
  }

  lemma TestClosed(n: Node, jt: int, jf: int)
    requires GoodTest(n, jt, jf)
    ensures Made(n)
  {
    assert Opened(Key);
  }

  lemma ThreeOk(g: Graph, rank: Rank)
    requires ThreeShape(g, rank)
    ensures Optimizer.Ready(g, rank, 0) && Reach(g, rank, 0) == {0, 1, 2, 3, 4}
  {
    ThreeWf(g, rank);
    ThreeReach(g, rank);
    ThreeClosed(g, rank, Reach(g, rank, 0));
  }

  lemma ThreeIs()
    ensures ThreeShape(ThreeGraph(), ThreeRank())
  {
    FirstGoes(1, Packet([], 0));
    SecondGoes(2, Packet([], 0));
    ThirdGoes(4, Packet([], 0));
  }

  /** The verdict of such a graph. */
  lemma ThreeRun(g: Graph, rank: Rank, st: Store, p: Packet)
    requires ThreeShape(g, rank)
    ensures WellFormed(g, rank)
    ensures Run(g, rank, 0, st, p) ==
      if Goes(g[0], p) != Some(false) then Verdict(Goes(g[0], p))
      else if Goes(g[1], p) != Some(false) then Verdict(Goes(g[1], p))
      else Verdict(Goes(g[2], p))
  {
    ThreeWf(g, rank);
    ThreeStep(g, rank, 0, st, p);
    ThreeStep(g, rank, 1, ZERO, p);
    ThreeStep(g, rank, 2, ZERO, p);
    LeafRun(g, rank, 3, p);
    LeafRun(g, rank, 4, p);
  }

  lemma ThreeStep(g: Graph, rank: Rank, b: nat, st: Store, p: Packet)
    requires ThreeShape(g, rank) && WellFormed(g, rank) && b < 3
    ensures Run(g, rank, b, st, p) ==
      match Goes(g[b], p)
      case None => None
      case Some(d) => Run(g, rank, if d then g[b].jt else g[b].jf, ZERO, p)
  {
    ThreeClosed(g, rank, Reach(g, rank, b));
    RunAnyState(g, rank, b, st, p);
  }

  lemma LeafRun(g: Graph, rank: Rank, b: nat, p: Packet)
    requires WellFormed(g, rank) && b in rank && b < |g| && g[b].Leaf() && g[b].stmts == []
    ensures Run(g, rank, b, ZERO, p) == Some(g[b].s.k)
  {
  }

  function Verdict(d: Option<bool>): Option<Word> {
    match d
    case None => None
    case Some(yes) => Some(if yes then SNAP else 0)
  }

  /** The graph answers as the filter does. */
  lemma ThreeAnswers(st: Store, p: Packet)
    ensures WellFormed(ThreeGraph(), ThreeRank())
    ensures Run(ThreeGraph(), ThreeRank(), 0, st, p) == Compiler.Answer(Some(THREE), SNAP, p)
  {
    ThreeIs();
    FirstGoes(1, p);
    SecondGoes(2, p);
    ThirdGoes(4, p);
    ThreeRun(ThreeGraph(), ThreeRank(), st, p);
    ThreeMeaning(p);
  }

  lemma Unguarded(op: JmpOp, l: Arith, r: Arith, p: Packet)
    requires Guard(l, ETHERNET, p) == Accept && Guard(r, ETHERNET, p) == Accept
    ensures Meaning(Relation(op, l, r, false), ETHERNET, p) == CompareMeaning(op, l, r, ETHERNET, p)
  {
  }

  lemma ThreeMeaning(p: Packet)
    ensures Meaning(THREE, ETHERNET, p) ==
      Or3(Or3(CompareMeaning(Jgt, EtherByte(0), Imm(5), ETHERNET, p),
              CompareMeaning(Jgt, EtherByte(1), Imm(5), ETHERNET, p)),
          CompareMeaning(Jgt, EtherByte(0), EtherByte(100), ETHERNET, p))
  {
    forall i: Word ensures Guard(EtherByte(i), ETHERNET, p) == Accept {
      assert Guard(Imm(i), ETHERNET, p) == Accept;
    }
    var r0, r1, r2 := Relation(Jgt, EtherByte(0), Imm(5), false), Relation(Jgt, EtherByte(1), Imm(5), false),
                      Relation(Jgt, EtherByte(0), EtherByte(100), false);
    Unguarded(Jgt, EtherByte(0), Imm(5), p);
    Unguarded(Jgt, EtherByte(1), Imm(5), p);
    Unguarded(Jgt, EtherByte(0), EtherByte(100), p);
    assert Meaning(Either(r0, r1), ETHERNET, p) == Or3(Meaning(r0, ETHERNET, p), Meaning(r1, ETHERNET, p));
    assert THREE == Either(Either(r0, r1), r2);
  }

  // ----- the numbers of its values

  ghost predicate AllStepped(nodes: seq<VNode>, tr: NumberTrace, ss: seq<Stmt>, ss': seq<Stmt>, alter: bool) {
    && |tr| == |ss| + 1 && |ss'| == |ss|
    && forall k {:trigger Stepped(nodes, tr, ss, ss', alter, k)} ::
      0 <= k < |ss| ==> Stepped(nodes, tr, ss, ss', alter, k)
  }

  /** The code of `ether[i]` leaves the number of a load at offset 0 from the constant `i`. */
  lemma ByteNumber(nodes: seq<VNode>, tr: NumberTrace, ss: seq<Stmt>, ss': seq<Stmt>, o: nat, i: Word, r: nat, n: nat)
    requires AllStepped(nodes, tr, ss, ss', false) && r < MEMWORDS && n < MEMWORDS
    requires o + 5 <= |ss| && ss[o..o + 5] == ByteCode(i, r, n)
    ensures ByteNode(nodes, tr[o + 5][n], i)
  {
    var t := ss[o..o + 5];
    assert ss[o] == t[0] && ss[o + 1] == t[1] && ss[o + 2] == t[2] && ss[o + 3] == t[3] && ss[o + 4] == t[4];
    assert t[0] == Stmt(LdImm, i) && t[1] == Stmt(St, r) && t[2] == Stmt(LdxMem, r);
    assert t[3] == Stmt(LdInd(ByteSize), 0) && t[4] == Stmt(St, n);
    NextNumber(nodes, tr, ss, ss', o);
    NextNumber(nodes, tr, ss, ss', o + 1);
    NextNumber(nodes, tr, ss, ss', o + 2);
    NextNumber(nodes, tr, ss, ss', o + 3);
    NextNumber(nodes, tr, ss, ss', o + 4);
  }

  ghost predicate ByteNode(nodes: seq<VNode>, v: nat, i: Word) {
    1 <= v <= |nodes| && nodes[v - 1].code == LdInd(ByteSize) && nodes[v - 1].v0 == 0 &&
      IsNode(nodes, nodes[v - 1].v1, K(i))
  }

  /** What one statement does to the numbers. */
  lemma NextNumber(nodes: seq<VNode>, tr: NumberTrace, ss: seq<Stmt>, ss': seq<Stmt>, k: nat)
    requires AllStepped(nodes, tr, ss, ss', false) && k < |ss|
    ensures Named(nodes, tr[k], ss[k], false, tr[k + 1])
    ensures forall a {:trigger tr[k + 1][a]} :: 0 <= a < N_ATOMS && a !in DefSet(ss[k]) ==> tr[k + 1][a] == tr[k][a]
  {
    assert Stepped(nodes, tr, ss, ss', false, k);
  }

  /** Bytes at equal offsets, and only they, get equal numbers. */
  lemma BytesEqual(nodes: seq<VNode>, v: nat, w: nat, i: Word, j: Word)
    requires Distinct(nodes) && ByteNode(nodes, v, i) && ByteNode(nodes, w, j)
    ensures v == w <==> i == j
  {
    var m, n := nodes[v - 1].v1, nodes[w - 1].v1;
    assert nodes[m - 1] == K(i) && nodes[n - 1] == K(j);
    if i == j {
      assert m == n;
      assert nodes[v - 1] == nodes[w - 1];
    }
  }

  /** A value fetched from register `n` behind the code that put it there. */
  lemma FetchedNumber(nodes: seq<VNode>, tr: NumberTrace, ss: seq<Stmt>, ss': seq<Stmt>, k: nat, n: nat)
    requires AllStepped(nodes, tr, ss, ss', false) && k < |ss| && n < MEMWORDS
    requires forall i {:trigger ss[i]} :: k <= i < |ss| - 1 ==> n !in DefSet(ss[i])
    requires ss[|ss| - 1] == Stmt(LdMem, n)
    ensures tr[|ss|][A] == tr[k][n]
    decreases |ss| - k
  {
    NextNumber(nodes, tr, ss, ss', k);
    if k < |ss| - 1 {
      FetchedNumber(nodes, tr, ss, ss', k + 1, n);
      assert n !in DefSet(ss[k]);
    }
  }

  lemma BlockStepped(g: Graph, rank: Rank, w: Optimizer.Trail, b: nat)
    requires Optimizer.NumbersTrue(g, rank, 0, w) && b < |g| && b in Reach(g, rank, 0)
    ensures |w.pass.val| == |w.pass.traces| == |w.pass.out| == |g|
    ensures AllStepped(w.nodes, w.pass.traces[b], g[b].stmts, w.pass.out[b].stmts, false)
    ensures w.pass.val[b] == w.pass.traces[b][|g[b].stmts|]
  {
    var P := w.pass;
    assert Done(g, w.nodes, P.val[b], P.oval[b], P.entry[b], P.traces[b], P.out[b], false, b);
  }

  /** The accumulator on exit from a block whose left operand is a byte. */
  lemma LeftNumber(nodes: seq<VNode>, tr: NumberTrace, ss': seq<Stmt>, i: Word, r: nat, n: nat, right: seq<Stmt>,
                   rr: nat)
    requires r < MEMWORDS && n < MEMWORDS && rr < MEMWORDS
    requires AllStepped(nodes, tr, ByteCode(i, r, n) + right + Fetch(Jgt, n, rr), ss', false)
    requires forall k {:trigger right[k]} :: 0 <= k < |right| ==> n !in DefSet(right[k])
    ensures ByteNode(nodes, tr[|right| + 7][A], i)
  {
    var ss := ByteCode(i, r, n) + right + Fetch(Jgt, n, rr);
    assert |ss| == |right| + 7 && ss[0..5] == ByteCode(i, r, n);
    ByteNumber(nodes, tr, ss, ss', 0, i, r, n);
    forall k | 5 <= k < |ss| - 1 ensures n !in DefSet(ss[k]) {
      if k < |right| + 5 {
        assert ss[k] == right[k - 5];
      }
    }
    FetchedNumber(nodes, tr, ss, ss', 5, n);
  }

  /** The first and the third test find the same number in the accumulator, the second
      another one. */
  lemma ThreeNumbers(g: Graph, rank: Rank, w: Optimizer.Trail)
    requires g == ThreeGraph() && rank == ThreeRank() && Optimizer.NumbersTrue(g, rank, 0, w)
    ensures |w.pass.val| == 5 && w.pass.val[0][A] == w.pass.val[2][A] && w.pass.val[1][A] != w.pass.val[0][A]
  {
    ThreeIs();
    ThreeReach(g, rank);
    BlockStepped(g, rank, w, 0);
    BlockStepped(g, rank, w, 1);
    BlockStepped(g, rank, w, 2);
    var P := w.pass;
    FirstNumber(w.nodes, P.traces[0], P.out[0].stmts);
    SecondNumber(w.nodes, P.traces[1], P.out[1].stmts);
    ThirdNumber(w.nodes, P.traces[2], P.out[2].stmts);
    BytesEqual(w.nodes, P.val[0][A], P.val[2][A], 0, 0);
    BytesEqual(w.nodes, P.val[0][A], P.val[1][A], 0, 1);
  }

  lemma FirstNumber(nodes: seq<VNode>, tr: NumberTrace, ss': seq<Stmt>)
    requires AllStepped(nodes, tr, First(1).stmts, ss', false)
    ensures |First(1).stmts| == 9 && ByteNode(nodes, tr[9][A], 0)
  {
    LeftNumber(nodes, tr, ss', 0, 0, 1, ConstCode(5, 2), 2);
  }

  lemma SecondNumber(nodes: seq<VNode>, tr: NumberTrace, ss': seq<Stmt>)
    requires AllStepped(nodes, tr, Second(2).stmts, ss', false)
    ensures |Second(2).stmts| == 9 && ByteNode(nodes, tr[9][A], 1)
  {
    LeftNumber(nodes, tr, ss', 1, 2, 3, ConstCode(5, 4), 4);
  }

  lemma ThirdNumber(nodes: seq<VNode>, tr: NumberTrace, ss': seq<Stmt>)
    requires AllStepped(nodes, tr, Third(4).stmts, ss', false)
    ensures |Third(4).stmts| == 12 && ByteNode(nodes, tr[12][A], 0)
  {
    LeftNumber(nodes, tr, ss', 0, 4, 5, ByteCode(100, 6, 7), 7);
  }

  // ----- the move

  /** Whatever leads to the third test comes through the second. */
  lemma SecondDominates(g: Graph, rank: Rank, dom: seq<set<nat>>)
    requires ThreeShape(g, rank) && WellFormed(g, rank)
    requires Visited(BlockNet(g, rank, 0), Reach(g, rank, 0), dom, true)
    ensures |dom| == 5 && 1 in dom[1] && 1 in dom[2]
  {
    ThreeReach(g, rank);
    DominatorsExact(g, rank, 0, dom, 1, 1);
    DominatorsExact(g, rank, 0, dom, 2, 1);
    forall ns | Path(BlockNet(g, rank, 0), ns, 1) ensures 1 in Elems(ns) {
    }
    forall ns | Path(BlockNet(g, rank, 0), ns, 2) ensures 1 in Elems(ns) {
      ThroughSecond(g, rank, ns);
    }
  }

  lemma ThroughSecond(g: Graph, rank: Rank, ns: seq<nat>)
    requires ThreeShape(g, rank) && WellFormed(g, rank) && Path(BlockNet(g, rank, 0), ns, 2)
    ensures 1 in Elems(ns)
  {
    var u := ns[|ns| - 2];
    assert Linked(BlockNet(g, rank, 0).links, u, 2);
    assert u == 1;
    ElemsIn(ns, 1);
  }

  /** The second test is entered from the first only. */
  lemma FirstLeads(g: Graph, rank: Rank, sv: Pullup.Survey)
    requires ThreeShape(g, rank) && WellFormed(g, rank) && sv.Sized(5) && InEdges(g, Reach(g, rank, 0), sv.inEdges)
    ensures Pullup.AllLeave(g, sv, 1, sv.val[0][A])
  {
    ThreeReach(g, rank);
    var list := sv.inEdges[1];
    assert EdgesListed(g, Reach(g, rank, 0), list, 1);
    assert Into(g, Reach(g, rank, 0), 5, 1);
    ElemsIn(list, 5);
    forall k | 0 <= k < |list| ensures Pred(g, list[k]) == 0 {
      ElemsIn(list, list[k]);
      assert Into(g, Reach(g, rank, 0), list[k], 1);
    }
  }

  /** The chain of the second and the third test has the pattern looked for. */
  lemma ChainPulls(g: Graph, rank: Rank, sv: Pullup.Survey, v: nat)
    requires ThreeShape(g, rank) && WellFormed(g, rank) && sv.Sized(5) && 1 in sv.dom[1] && 1 in sv.dom[2]
    requires sv.val[2][A] == v != sv.val[1][A]
    ensures Pullup.Pullable(g, rank, 0, sv, 1, true, v, [1, 2], 0)
  {
    ThreeReach(g, rank);
    assert Pullup.Follows(g, [1, 2], 0, true);
  }

  lemma ThreePattern(g: Graph, rank: Rank, sv: Pullup.Survey, w: Optimizer.Trail)
    requires g == ThreeGraph() && rank == ThreeRank() && Optimizer.Surveyed(g, rank, 0, sv, w)
    ensures exists v {:trigger Pullup.AllLeave(g, sv, 1, v)} ::
      Pullup.AllLeave(g, sv, 1, v) && Pullup.Pullable(g, rank, 0, sv, 1, true, v, [1, 2], 0)
  {
    ThreeIs();
    ThreeNumbers(g, rank, w);
    SecondDominates(g, rank, sv.dom);
    FirstLeads(g, rank, sv);
    ChainPulls(g, rank, sv, sv.val[0][A]);
  }

  /** `ether[0]` is 0 and `ether[1]` is 9, and there is nothing behind them. */
  const TWO_BYTES: Packet := Packet([0, 9], 60)

  lemma TwoBytesWays()
    ensures Goes(First(1), TWO_BYTES) == Some(false) && Goes(Second(2), TWO_BYTES) == Some(true)
    ensures Goes(Third(4), TWO_BYTES) == None
  {
    FirstGoes(1, TWO_BYTES);
    SecondGoes(2, TWO_BYTES);
    ThirdGoes(4, TWO_BYTES);
    assert Value(EtherByte(0), ETHERNET, TWO_BYTES) == Load(TWO_BYTES, 0, ByteSize) == Some(0);
    assert Value(EtherByte(1), ETHERNET, TWO_BYTES) == Load(TWO_BYTES, 1, ByteSize) == Some(9);
    assert Value(EtherByte(100), ETHERNET, TWO_BYTES) == Load(TWO_BYTES, 100, ByteSize) == None;
  }

  /** The chain that starts with the second test ends with the third. */
  lemma OnlyChain(g: Graph, rank: Rank, sv: Pullup.Survey, v: nat, c: seq<nat>, j: nat)
    requires ThreeShape(g, rank) && WellFormed(g, rank) && sv.Sized(5) &&
      Pullup.Pullable(g, rank, 0, sv, 1, true, v, c, j)
    ensures c == [1, 2] && j == 0
  {
    assert Pullup.Follows(g, c, 0, true);
    assert c[1] == 2;
    assert |c| > 2 ==> Pullup.Follows(g, c, 1, true);
  }

  /** So the attempt at the second test moves the third one. */
  lemma MustMove(g: Graph, rank: Rank, sv: Pullup.Survey, w: Optimizer.Trail, moved: bool, g': Graph, mv: Pullup.Move)
    requires g == ThreeGraph() && rank == ThreeRank() && Optimizer.Surveyed(g, rank, 0, sv, w)
    requires Optimizer.PullTried(g, rank, 0, sv, 1, true, moved, g', mv)
    ensures moved && mv.c == [1, 2] && mv.j == 0
  {
    ThreeIs();
    ThreePattern(g, rank, sv, w);
    var v :| Pullup.AllLeave(g, sv, 1, v) && Pullup.Pullable(g, rank, 0, sv, 1, true, v, [1, 2], 0);
    assert !Pullup.NonePullable(g, rank, 0, sv, 1, true, v);
    var u :| Pullup.AllLeave(g, sv, 1, u) && Pullup.Pullable(g, rank, 0, sv, 1, true, u, mv.c, mv.j);
    OnlyChain(g, rank, sv, u, mv.c, mv.j);
  }

  /** On the two bytes control comes to the second test, and the third one aborts. */
  lemma Harmful(g: Graph, rank: Rank, mv: Pullup.Move)
    requires g == ThreeGraph() && rank == ThreeRank() && mv.c == [1, 2] && mv.j == 0
    ensures WellFormed(g, rank) && !Optimizer.PullHarmless(g, rank, 0, mv, TWO_BYTES)
  {
    ThreeIs();
    ThreeWf(g, rank);
    TwoBytesWays();
    assert OnTrace(g, rank, 1, 1, TWO_BYTES);
    assert Onward(g, 0, TWO_BYTES) == 1;
  }

  /** The pull-up moves the third test of the graph in front of the second, and the program
      no longer accepts a packet that the filter accepts. */
  method PullLosesVerdict(hash: VNode -> nat)
    returns (moved: bool, g': Graph, ghost rank': Rank, ghost mv: Pullup.Move, ghost sv: Pullup.Survey,
             ghost w: Optimizer.Trail)
    ensures Optimizer.Surveyed(ThreeGraph(), ThreeRank(), 0, sv, w)
    ensures Optimizer.PullTried(ThreeGraph(), ThreeRank(), 0, sv, 1, true, moved, g', mv)
    ensures moved && mv.c == [1, 2] && mv.j == 0
    ensures WellFormed(g', rank') && 0 in rank'
    ensures forall st, p {:trigger Compiler.Answer(Some(THREE), SNAP, p), Run(ThreeGraph(), ThreeRank(), 0, st, p)} ::
      WellFormed(ThreeGraph(), ThreeRank()) &&
      Run(ThreeGraph(), ThreeRank(), 0, st, p) == Compiler.Answer(Some(THREE), SNAP, p)
    ensures Compiler.Answer(Some(THREE), SNAP, TWO_BYTES) == Some(SNAP)
    ensures forall st {:trigger Run(g', rank', 0, st, TWO_BYTES)} :: Run(g', rank', 0, st, TWO_BYTES) == None
  {
    var g := ThreeGraph();
    ghost var rank := ThreeRank();
    ThreeIs();
    ThreeOk(g, rank);
    Optimizer.TableSizeEnough(g, rank, 0);
    moved, g', rank', mv, sv, w := Optimizer.PullTest(g, rank, 0, 1, true, Optimizer.TableSize(g), hash);
    MustMove(g, rank, sv, w, moved, g', mv);
    Harmful(g, rank, mv);
    TwoBytesAccepted();
    forall st, p ensures Run(g, rank, 0, st, p) == Compiler.Answer(Some(THREE), SNAP, p) {
      ThreeAnswers(st, p);
    }
  }

  lemma TwoBytesAccepted()
    ensures Compiler.Answer(Some(THREE), SNAP, TWO_BYTES) == Some(SNAP)
  {
    ThreeIs();
    TwoBytesWays();
    ThreeAnswers(ZERO, TWO_BYTES);
    ThreeRun(ThreeGraph(), ThreeRank(), ZERO, TWO_BYTES);
  }

  // ----- a division by what is known to be 0

  /** `ether[0] / 0 = 1` */
  const QUOTIENT: Filter := Relation(Jeq, Bin(Div, EtherByte(0), Imm(0)), Imm(1), false)

  function QuotientCode(): seq<Stmt> {
    ByteCode(0, 0, 1) + ConstCode(0, 2) + [Stmt(LdxMem, 2), Stmt(LdMem, 1), Stmt(AluX(Div), 0)] + [Stmt(St, 2)]
  }

  /** Its blocks, as the generator makes them. */
  function QuotientGraph(): Graph {
    [TestNode(Jeq, QuotientCode() + ConstCode(1, 3), 2, 3, 1, 2), Leaf(SNAP), Leaf(0)]
  }

  ghost function QuotientRank(): Rank {
    map[0 := 1, 1 := 0, 2 := 0]
  }

  lemma QuotientTest(p: Packet)
    ensures GoodTest(QuotientGraph()[0], 1, 2)
    ensures Goes(QuotientGraph()[0], p) == Way(CompareMeaning(Jeq, Bin(Div, EtherByte(0), Imm(0)), Imm(1), ETHERNET, p))
  {
    ByteComputes(0, 0, 1, NONE_USED);
    LoadiComputes(0, 2, NONE_USED[1 := true], ETHERNET);
    TwoOperands(ByteCode(0, 0, 1), 1, ConstCode(0, 2), 2, NONE_USED, EtherByte(0), Imm(0), ETHERNET);
    BinComputes(ByteCode(0, 0, 1) + ConstCode(0, 2), 1, 2, NONE_USED, Div, EtherByte(0), Imm(0), ETHERNET, 2);
    LoadiComputes(1, 3, NONE_USED[2 := true], ETHERNET);
    TwoOperands(QuotientCode(), 2, ConstCode(1, 3), 3, NONE_USED, Bin(Div, EtherByte(0), Imm(0)), Imm(1), ETHERNET);
    TestGoes(Jeq, QuotientCode() + ConstCode(1, 3), 2, 3, NONE_USED, Bin(Div, EtherByte(0), Imm(0)), Imm(1), 1, 2, p);
  }

  lemma QuotientSane()
    ensures Optimizer.Sane(QuotientGraph(), QuotientRank(), 0) && 0 in Reach(QuotientGraph(), QuotientRank(), 0)
  {
    var g, rank := QuotientGraph(), QuotientRank();
    QuotientTest(Packet([], 0));
    TestOk(g, rank, 0, 1, 2);
    assert NodeOk(g, rank, 1) && NodeOk(g, rank, 2);
    ReachStep(g, rank, 0);
  }

  /** The same, written out. */
  function QuotientList(): seq<Stmt> {
    [Stmt(LdImm, 0), Stmt(St, 0), Stmt(LdxMem, 0), Stmt(LdInd(ByteSize), 0), Stmt(St, 1),
     Stmt(LdImm, 0), Stmt(St, 2), Stmt(LdxMem, 2), Stmt(LdMem, 1), Stmt(AluX(Div), 0), Stmt(St, 2),
     Stmt(LdImm, 1), Stmt(St, 3), Stmt(LdxMem, 3), Stmt(LdMem, 2), Stmt(AluX(Sub), 0)]
  }

  lemma QuotientIs()
    ensures QuotientGraph()[0].stmts == QuotientList()
  {
    assert ByteCode(0, 0, 1) == [Stmt(LdImm, 0), Stmt(St, 0), Stmt(LdxMem, 0), Stmt(LdInd(ByteSize), 0), Stmt(St, 1)];
    assert QuotientCode() == QuotientList()[..11];
    assert QuotientGraph()[0].stmts == QuotientCode() + QuotientList()[11..];
  }

  /** The statements up to the division. */
  lemma QuotientStmts()
    ensures
      var ss := QuotientGraph()[0].stmts;
      && |ss| == 16 && ss[0] == Stmt(LdImm, 0) && ss[1] == Stmt(St, 0) && ss[2] == Stmt(LdxMem, 0)
      && ss[3] == Stmt(LdInd(ByteSize), 0) && ss[4] == Stmt(St, 1) && ss[5] == Stmt(LdImm, 0) && ss[6] == Stmt(St, 2)
      && ss[7] == Stmt(LdxMem, 2) && ss[8] == Stmt(LdMem, 1) && ss[9] == Stmt(AluX(Div), 0)
      && forall k {:trigger ss[k]} :: 0 <= k < 16 && k != 9 ==> ss[k].code != AluX(Div) && ss[k].code != AluK(Div)
  {
    QuotientIs();
    FirstStmts();
    var ss := QuotientGraph()[0].stmts;
    forall k | 0 <= k < 16 && k != 9 ensures ss[k].code != AluX(Div) && ss[k].code != AluK(Div) {
      OneDivision(k);
    }
  }

  lemma FirstStmts()
    ensures
      var ss := QuotientList();
      && |ss| == 16 && ss[0] == Stmt(LdImm, 0) && ss[1] == Stmt(St, 0) && ss[2] == Stmt(LdxMem, 0)
      && ss[3] == Stmt(LdInd(ByteSize), 0) && ss[4] == Stmt(St, 1) && ss[5] == Stmt(LdImm, 0) && ss[6] == Stmt(St, 2)
      && ss[7] == Stmt(LdxMem, 2) && ss[8] == Stmt(LdMem, 1) && ss[9] == Stmt(AluX(Div), 0)
  {
  }

  lemma OneDivision(k: nat)
    requires k < 16 && k != 9
    ensures QuotientList()[k].code != AluX(Div) && QuotientList()[k].code != AluK(Div)
  {
  }

  /** Before the division, X is known to be 0 and the accumulator is not known. */
  lemma BeforeDivision(nodes: seq<VNode>, tr: NumberTrace, ss: seq<Stmt>, ss': seq<Stmt>)
    requires |ss| >= 9 && |tr| == |ss| + 1 && |ss'| == |ss| && ss[..9] == QuotientGraph()[0].stmts[..9]
    requires forall k {:trigger Stepped(nodes, tr, ss, ss', true, k)} ::
      0 <= k < |ss| ==> Stepped(nodes, tr, ss, ss', true, k)
    ensures ConstAt(nodes, tr[9][X]) == Some(0) && ConstAt(nodes, tr[9][A]) == None
  {
    QuotientStmts();
    var t := QuotientGraph()[0].stmts;
    forall k | 0 <= k < 9 ensures ss[k] == t[k] {
      assert ss[..9][k] == t[..9][k];
    }
    LoadedUnknown(nodes, tr, ss, ss');
    ZeroKnown(nodes, tr, ss, ss');
    assert Stepped(nodes, tr, ss, ss', true, 8);
  }

  lemma ZeroKnown(nodes: seq<VNode>, tr: NumberTrace, ss: seq<Stmt>, ss': seq<Stmt>)
    requires |ss| >= 9 && |tr| == |ss| + 1 && |ss'| == |ss| && ConstAt(nodes, tr[5][1]) == None
    requires ss[5] == Stmt(LdImm, 0) && ss[6] == Stmt(St, 2) && ss[7] == Stmt(LdxMem, 2)
    requires forall k {:trigger Stepped(nodes, tr, ss, ss', true, k)} ::
      0 <= k < |ss| ==> Stepped(nodes, tr, ss, ss', true, k)
    ensures ConstAt(nodes, tr[8][X]) == Some(0) && ConstAt(nodes, tr[8][1]) == None
  {
    assert Stepped(nodes, tr, ss, ss', true, 5) && Stepped(nodes, tr, ss, ss', true, 6);
    assert Stepped(nodes, tr, ss, ss', true, 7);
  }

  lemma LoadedUnknown(nodes: seq<VNode>, tr: NumberTrace, ss: seq<Stmt>, ss': seq<Stmt>)
    requires |ss| >= 9 && |tr| == |ss| + 1 && |ss'| == |ss|
    requires ss[0] == Stmt(LdImm, 0) && ss[1] == Stmt(St, 0) && ss[2] == Stmt(LdxMem, 0)
    requires ss[3] == Stmt(LdInd(ByteSize), 0) && ss[4] == Stmt(St, 1)
    requires forall k {:trigger Stepped(nodes, tr, ss, ss', true, k)} ::
      0 <= k < |ss| ==> Stepped(nodes, tr, ss, ss', true, k)
    ensures ConstAt(nodes, tr[5][1]) == None
  {
    assert Stepped(nodes, tr, ss, ss', true, 0) && Stepped(nodes, tr, ss, ss', true, 1);
    assert Stepped(nodes, tr, ss, ss', true, 2) && Stepped(nodes, tr, ss, ss', true, 3);
    assert Stepped(nodes, tr, ss, ss', true, 4);
  }

  lemma QuotientReach(b: nat)
    requires WellFormed(QuotientGraph(), QuotientRank()) && b in Reach(QuotientGraph(), QuotientRank(), 0)
    ensures b < 3 && (b == 0 || QuotientGraph()[b].stmts == [])
  {
    ReachRanked(QuotientGraph(), QuotientRank(), 0, b);
  }

  /** Where the pass would stop: at the division, */
  lemma StopsThere(g: Graph, rank: Rank, w: Optimizer.Trail)
    requires g == QuotientGraph() && rank == QuotientRank() && Optimizer.StoppedBy(g, rank, 0, w)
    ensures w.stop.b == 0 && w.stop.k == 9
  {
    QuotientReach(w.stop.b);
    QuotientStmts();
  }

  lemma UnknownThere(g: Graph, x: Stop)
    requires g == QuotientGraph() && x.b == 0 && x.k == 9 && |g[0].stmts| >= 9 && |x.done| == 9
    requires ListNumbered(x.first, x.entry, g[0].stmts[..9], true, x.nodes, x.before, x.done, x.trace)
    ensures ConstAt(x.nodes, x.before[A]) == None
  {
    var pre := g[0].stmts[..9];
    assert pre[..9] == pre;
    BeforeDivision(x.nodes, x.trace, pre, x.done);
  }

  /** which it does not: the accumulator is not constant. */
  lemma QuotientGoesOn(g: Graph, rank: Rank, w: Optimizer.Trail)
    requires g == QuotientGraph() && rank == QuotientRank()
    ensures !Optimizer.StoppedBy(g, rank, 0, w)
  {
    if Optimizer.StoppedBy(g, rank, 0, w) {
      StopsThere(g, rank, w);
      UnknownThere(g, w.stop);
    }
  }

  /** Rewritten, the statement divides by the constant 0. */
  lemma QuotientDivides(g: Graph, rank: Rank, w: Optimizer.Trail)
    requires g == QuotientGraph() && rank == QuotientRank() && Finished(g, rank, 0, w.nodes, w.pass)
    ensures !ZeroFree(w.pass.out, Reach(g, rank, 0))
  {
    var P := w.pass;
    QuotientSane();
    QuotientStmts();
    assert Done(g, w.nodes, P.val[0], P.oval[0], P.entry[0], P.traces[0], P.out[0], true, 0);
    BeforeDivision(w.nodes, P.traces[0], g[0].stmts, P.out[0].stmts);
    assert DivisorZero(g, w.nodes, P, 0, 9);
    RewrittenZeroFree(g, rank, 0, w.nodes, P);
  }

  lemma SameReach(g: Graph, rank: Rank, w: Optimizer.Trail)
    requires g == QuotientGraph() && rank == QuotientRank() && Finished(g, rank, 0, w.nodes, w.pass)
    ensures WellFormed(w.pass.out, rank) && Reach(w.pass.out, rank, 0) == Reach(g, rank, 0)
    ensures Total(Weights(w.pass.out)) == 25
  {
    var g' := w.pass.out;
    RewrittenWf(g, rank, 0, w.nodes, w.pass);
    forall b: nat | b < 3 ensures g'[b] == g[b].(stmts := g'[b].stmts) && |g'[b].stmts| == |g[b].stmts| {
      RewrittenBlock(g, rank, 0, w.nodes, w.pass, b);
    }
    ReachStep(g, rank, 0);
    ReachStep(g, rank, 1);
    ReachStep(g, rank, 2);
    ReachStep(g', rank, 0);
    ReachStep(g', rank, 1);
    ReachStep(g', rank, 2);
    QuotientStmts();
    QuotientWeights(Weights(g'));
  }

  lemma QuotientWeights(v: seq<nat>)
    requires v == [19, 3, 3]
    ensures Total(v) == 25
  {
    assert v[..2] == [19, 3] && [19, 3][..1] == [19] && [19][..0] == [];
    assert Total([19]) == 19 && Total([19, 3]) == 22;
  }

  lemma NoQuotient(p: Packet)
    ensures Value(Bin(Div, EtherByte(0), Imm(0)), ETHERNET, p) == None
    ensures Compiler.Answer(Some(QUOTIENT), SNAP, p) == None
  {
    var l := Bin(Div, EtherByte(0), Imm(0));
    assert Value(Imm(0), ETHERNET, p) == Some(0);
    assert Guard(Imm(0), ETHERNET, p) == Guard(Imm(1), ETHERNET, p) == Accept;
    assert Guard(EtherByte(0), ETHERNET, p) == Accept;
    Unguarded(Jeq, l, Imm(1), p);
  }

  lemma GoodAborts(n: Node, jt: int, jf: int, st: Store, p: Packet)
    requires GoodTest(n, jt, jf) && Goes(n, p) == None
    ensures ExecList(n.stmts, st, p) == None
  {
    assert Opened(Key);
    ClosedGoes(n, st, p);
  }

  /** The graph answers as the filter does: there is no answer. */
  lemma QuotientAnswers(st: Store, p: Packet)
    ensures WellFormed(QuotientGraph(), QuotientRank())
    ensures Run(QuotientGraph(), QuotientRank(), 0, st, p) == None == Compiler.Answer(Some(QUOTIENT), SNAP, p)
  {
    QuotientSane();
    QuotientTest(p);
    NoQuotient(p);
    GoodAborts(QuotientGraph()[0], 1, 2, st, p);
  }

  /** The rewriting pass puts a division by the constant 0 into the graph of a filter that
      the generator accepts, and the kernel refuses the program made of it, though not the
      one made of the graph as it was. */
  method DivisionRefused(hash: VNode -> nat)
    returns (before: Compiler.Compiled, g': Graph, after: Compiler.Compiled, ghost w: Optimizer.Trail)
    ensures Generable(QUOTIENT, ETHERNET, 16)
    ensures Finished(QuotientGraph(), QuotientRank(), 0, w.nodes, w.pass) && g' == w.pass.out
    ensures WellFormed(QuotientGraph(), QuotientRank()) && WellFormed(g', QuotientRank())
    ensures before.Program? && Validates(before.code)
    ensures forall st, p {:trigger RunFlat(before.code, 0, st, p)} ::
      RunFlat(before.code, 0, st, p) == Run(QuotientGraph(), QuotientRank(), 0, st, p)
    ensures after.Program? && !Validates(after.code)
    ensures forall st, p {:trigger RunFlat(after.code, 0, st, p)} ::
      RunFlat(after.code, 0, st, p) == Run(g', QuotientRank(), 0, st, p)
  {
    var g := QuotientGraph();
    ghost var rank := QuotientRank();
    QuotientSane();
    Optimizer.TableSizeEnough(g, rank, 0);
    before := Compiler.Emitted(g, 0, rank);
    QuotientBefore(g, rank);
    var ok;
    ok, g', w := Optimizer.RewriteStatements(g, rank, 0, Optimizer.TableSize(g), hash);
    QuotientGoesOn(g, rank, w);
    QuotientDivides(g, rank, w);
    SameReach(g, rank, w);
    after := Compiler.Emitted(g', 0, rank);
  }

  lemma QuotientBefore(g: Graph, rank: Rank)
    requires g == QuotientGraph() && rank == QuotientRank() && Optimizer.Sane(g, rank, 0)
    ensures ZeroFree(g, Reach(g, rank, 0)) && Total(Weights(g)) == 25 && Generable(QUOTIENT, ETHERNET, 16)
  {
    QuotientStmts();
    forall b, k | b in Reach(g, rank, 0) && b < |g| && 0 <= k < |g[b].stmts|
      ensures !ZeroDivision(g[b].stmts[k].code, g[b].stmts[k].k) {
      QuotientReach(b);
    }
    QuotientWeights(Weights(g));
  }

  // ----- filters that divide or shift and are steady all the same

  /** `ip[0] >> 4 = 4`, `(tcp[12] & 0xf0) >> 2 = 5` and `len / 2 >= 0x80000000 >> 0`; but
      not `ether[0] / 0 = 1` and not `0x80000000 >> 1 = 1`. */
  lemma SteadyOrNot()
    ensures Compiler.SteadyFilter(Relation(Jeq, Bin(Rsh, Index(QNet(EtherIp), Imm(0), 1), Imm(4)), Imm(4), false))
    ensures
      var offset := Bin(And, Index(QTran(IPPROTO_TCP), Imm(12), 1), Imm(0xf0));
      Compiler.SteadyFilter(Relation(Jeq, Bin(Rsh, offset, Imm(2)), Imm(5), false))
    ensures Compiler.SteadyFilter(Relation(Jge, Bin(Div, PktLen, Imm(2)), Bin(Rsh, Imm(0x8000_0000), Imm(0)), false))
    ensures !Compiler.SteadyFilter(QUOTIENT)
    ensures !Compiler.SteadyFilter(Relation(Jeq, Bin(Rsh, Imm(0x8000_0000), Imm(1)), Imm(1), false))
  {
  }
}
