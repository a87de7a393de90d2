/** Where the linearizer puts each block: the depth-first order in which blocks are
    emitted, their sizes, their offsets, and what it means for code to be laid out. */
module Layout {
  import opened Bpf
  import opened Flow
  import opened Lists

  // ----- the order of emission

  function First(n: Node, jtFirst: bool): int {
    if jtFirst then n.jt else n.jf
  }

  /** Depth-first order after `done`: a block follows both of its successors. The
      successor visited first is the true one when `jtFirst`. */
  ghost function Order(g: Graph, rank: Rank, b: int, done: seq<nat>, jtFirst: bool): seq<nat>
    requires WellFormed(g, rank) && (b == -1 || b in rank)
    decreases if b == -1 then 0 else rank[b] + 1
  {
    if b == -1 || b in Elems(done) then done
    else
      assert NodeOk(g, rank, b);
      Order(g, rank, First(g[b], !jtFirst), Order(g, rank, First(g[b], jtFirst), done, jtFirst), jtFirst) + [b]
  }

  /** Every block of the list comes after its successors, and once. */
  ghost predicate Topo(g: Graph, rank: Rank, list: seq<nat>) {
    list == [] ||
    (var l, b := list[..|list| - 1], list[|list| - 1];
     && Topo(g, rank, l) && b in rank && b < |g| && b !in Elems(l)
     && (!g[b].Leaf() ==> g[b].jt in Elems(l) && g[b].jf in Elems(l)))
  }

  /** What `r` adds to `done` has rank below `k`. */
  ghost predicate Below(g: Graph, rank: Rank, k: nat, done: seq<nat>, r: seq<nat>) {
    forall x :: x in Elems(r) && x !in Elems(done) ==> x in rank && rank[x] < k
  }

  /** Adding `b` after both of its successors' orders. */
  lemma OrderStep(g: Graph, rank: Rank, b: nat, done: seq<nat>, d: seq<nat>, r: seq<nat>)
    requires b in rank && b < |g| && b !in Elems(done) && Topo(g, rank, r)
    requires Prefix(done, d) && Prefix(d, r)
    requires Below(g, rank, rank[b], done, d) && Below(g, rank, rank[b], d, r)
    requires !g[b].Leaf() ==> g[b].jt in Elems(r) && g[b].jf in Elems(r)
    ensures Topo(g, rank, r + [b]) && Prefix(done, r + [b]) && b in Elems(r + [b])
    ensures Below(g, rank, rank[b] + 1, done, r + [b])
  {
    PrefixTrans(done, d, r);
    PrefixExtend(done, r, b);
  }

  /** The order extends `done`, contains `b`, and what it adds is of rank at most that
      of `b`. */
  lemma {:induction false} OrderProps(g: Graph, rank: Rank, b: int, done: seq<nat>, jtFirst: bool)
    requires WellFormed(g, rank) && (b == -1 || b in rank) && Topo(g, rank, done)
    ensures
      var r := Order(g, rank, b, done, jtFirst);
      && Topo(g, rank, r) && Prefix(done, r) && (b >= 0 ==> b in Elems(r))
      && (b >= 0 ==> Below(g, rank, rank[b] + 1, done, r)) && (b < 0 ==> r == done)
    decreases if b == -1 then 0 else rank[b] + 1
  {
    if !(b == -1 || b in Elems(done)) {
      assert NodeOk(g, rank, b);
      var c0, c1 := First(g[b], jtFirst), First(g[b], !jtFirst);
      var d := Order(g, rank, c0, done, jtFirst);
      var r := Order(g, rank, c1, d, jtFirst);
      OrderProps(g, rank, c0, done, jtFirst);
      OrderProps(g, rank, c1, d, jtFirst);
      PrefixElems(d, r);
      OrderStep(g, rank, b, done, d, r);
    }
  }

  lemma OrderTopo(g: Graph, rank: Rank, b: int, done: seq<nat>, jtFirst: bool)
    requires WellFormed(g, rank) && (b == -1 || b in rank) && Topo(g, rank, done)
    ensures Topo(g, rank, Order(g, rank, b, done, jtFirst)) && Prefix(done, Order(g, rank, b, done, jtFirst))
  {
    OrderProps(g, rank, b, done, jtFirst);
  }

  // ----- which blocks are emitted

  ghost function Reach(g: Graph, rank: Rank, b: int): set<nat>
    requires WellFormed(g, rank) && (b == -1 || b in rank)
    decreases if b == -1 then 0 else rank[b] + 1
  {
    if b == -1 then {}
    else
      assert NodeOk(g, rank, b);
      {b} + Reach(g, rank, g[b].jt) + Reach(g, rank, g[b].jf)
  }

  lemma {:induction false} ReachOfTopo(g: Graph, rank: Rank, list: seq<nat>, b: nat)
    requires WellFormed(g, rank) && Topo(g, rank, list) && b in Elems(list) && b in rank
    ensures Reach(g, rank, b) <= Elems(list)
    decreases |list|
  {
    var l, c := list[..|list| - 1], list[|list| - 1];
    assert NodeOk(g, rank, b);
    if b == c {
      if !g[b].Leaf() {
        ReachOfTopo(g, rank, l, g[b].jt);
        ReachOfTopo(g, rank, l, g[b].jf);
      }
    } else {
      ReachOfTopo(g, rank, l, b);
    }
  }

  lemma ReachEither(g: Graph, rank: Rank, b: nat, jtFirst: bool)
    requires WellFormed(g, rank) && b in rank
    ensures (g[b].jt == -1 || g[b].jt in rank) && (g[b].jf == -1 || g[b].jf in rank)
    ensures Reach(g, rank, b) == {b} + Reach(g, rank, First(g[b], jtFirst)) + Reach(g, rank, First(g[b], !jtFirst))
  {
    assert NodeOk(g, rank, b);
  }

  lemma Extended(r: seq<nat>, b: nat, e: set<nat>, r0: set<nat>, r1: set<nat>)
    requires Elems(r) == e + r0 + r1
    ensures Elems(r + [b]) == e + ({b} + r0 + r1)
  {
    assert (r + [b])[..|r|] == r;
  }

  lemma {:induction false} OrderElems(g: Graph, rank: Rank, b: int, done: seq<nat>, jtFirst: bool)
    requires WellFormed(g, rank) && (b == -1 || b in rank) && Topo(g, rank, done)
    ensures Elems(Order(g, rank, b, done, jtFirst)) == Elems(done) + Reach(g, rank, b)
    decreases if b == -1 then 0 else rank[b] + 1
  {
    if b == -1 {
    } else if b in Elems(done) {
      ReachOfTopo(g, rank, done, b);
    } else {
      assert NodeOk(g, rank, b);
      var c0, c1 := First(g[b], jtFirst), First(g[b], !jtFirst);
      var d := Order(g, rank, c0, done, jtFirst);
      OrderTopo(g, rank, c0, done, jtFirst);
      OrderElems(g, rank, c0, done, jtFirst);
      OrderElems(g, rank, c1, d, jtFirst);
      ReachEither(g, rank, b, jtFirst);
      var r := Order(g, rank, c1, d, jtFirst);
      Extended(r, b, Elems(done), Reach(g, rank, c0), Reach(g, rank, c1));
    }
  }

  // ----- sizes

  /** The instructions of a statement list; deleted statements vanish. */
  function Emit(ss: seq<Stmt>): seq<Insn> {
    if ss == [] then []
    else if ss[0].code.Nop? then Emit(ss[1..])
    else [Insn(ss[0].code, 0, 0, ss[0].k)] + Emit(ss[1..])
  }

  lemma {:induction false} EmitAppend(a: seq<Stmt>, b: seq<Stmt>)
    ensures Emit(a + b) == Emit(a) + Emit(b)
  {
    if a == [] {
      assert a + b == b;
    } else {
      assert (a + b)[1..] == a[1..] + b;
      EmitAppend(a[1..], b);
    }
  }

  /** Which branches of which blocks have been given a long jump. */
  datatype Flags = Flags(jt: seq<nat>, jf: seq<nat>)

  ghost predicate FlagsOk(g: Graph, L: Flags) {
    && |L.jt| == |g| && |L.jf| == |g|
    && forall b :: 0 <= b < |g| ==> L.jt[b] <= 1 && L.jf[b] <= 1 && (g[b].Leaf() ==> L.jt[b] == L.jf[b] == 0)
  }

  ghost function BlockSize(g: Graph, L: Flags, b: nat): nat {
    if b < |g| && b < |L.jt| && b < |L.jf| then |Emit(g[b].stmts)| + 1 + L.jt[b] + L.jf[b] else 0
  }

  ghost function Sum(g: Graph, L: Flags, list: seq<nat>): nat {
    if list == [] then 0 else Sum(g, L, list[..|list| - 1]) + BlockSize(g, L, list[|list| - 1])
  }

  /** The total size of the blocks up to and including `b`. */
  ghost function SumTo(g: Graph, L: Flags, list: seq<nat>, b: nat): nat {
    if list == [] then 0
    else if list[|list| - 1] == b then Sum(g, L, list)
    else SumTo(g, L, list[..|list| - 1], b)
  }

  lemma {:induction false} SumPrefix(g: Graph, L: Flags, a: seq<nat>, b: seq<nat>)
    requires Prefix(a, b)
    ensures Sum(g, L, a) <= Sum(g, L, b)
    decreases |b|
  {
    if |a| < |b| {
      assert b[..|b| - 1][..|a|] == a;
      SumPrefix(g, L, a, b[..|b| - 1]);
    } else {
      assert a == b;
    }
  }

  lemma {:induction false} SumToPrefix(g: Graph, rank: Rank, L: Flags, a: seq<nat>, b: seq<nat>, x: nat)
    requires Prefix(a, b) && Topo(g, rank, b) && x in Elems(a)
    ensures SumTo(g, L, a, x) == SumTo(g, L, b, x) <= Sum(g, L, a)
    decreases |b|
  {
    if |a| < |b| {
      var b' := b[..|b| - 1];
      assert b'[..|a|] == a;
      PrefixElems(a, b');
      SumToPrefix(g, rank, L, a, b', x);
    } else {
      assert a == b;
      if b[|b| - 1] != x {
        var b' := b[..|b| - 1];
        assert Prefix(b', b');
        SumToPrefix(g, rank, L, b', b', x);
      }
    }
  }

  // ----- the total does not depend on the order

  lemma {:induction false} SumRemove(g: Graph, L: Flags, list: seq<nat>, x: nat) returns (rest: seq<nat>)
    requires NoRepeat(list) && x in Elems(list)
    ensures NoRepeat(rest) && Elems(rest) == Elems(list) - {x} &&
      Sum(g, L, list) == Sum(g, L, rest) + BlockSize(g, L, x)
  {
    var l, c := list[..|list| - 1], list[|list| - 1];
    if c == x {
      rest := l;
    } else {
      var r := SumRemove(g, L, l, x);
      rest := r + [c];
      assert rest[..|rest| - 1] == r;
    }
  }

  lemma {:induction false} SumOfElems(g: Graph, L: Flags, a: seq<nat>, b: seq<nat>)
    requires NoRepeat(a) && NoRepeat(b) && Elems(a) == Elems(b)
    ensures Sum(g, L, a) == Sum(g, L, b)
    decreases |a|
  {
    if a == [] {
      EmptyElems(b);
    } else {
      var x := a[|a| - 1];
      var rest := SumRemove(g, L, b, x);
      assert Elems(a[..|a| - 1]) == Elems(rest);
      SumOfElems(g, L, a[..|a| - 1], rest);
    }
  }

  lemma {:induction false} TopoNoRepeat(g: Graph, rank: Rank, list: seq<nat>)
    requires Topo(g, rank, list)
    ensures NoRepeat(list)
  {
    if list != [] {
      TopoNoRepeat(g, rank, list[..|list| - 1]);
    }
  }

  /** Counting and emitting visit the successors in opposite orders, yet agree on the
      total. */
  lemma CountMatches(g: Graph, rank: Rank, L: Flags, root: nat)
    requires WellFormed(g, rank) && root in rank
    ensures Sum(g, L, Order(g, rank, root, [], true)) == Sum(g, L, Order(g, rank, root, [], false))
  {
    var a, b := Order(g, rank, root, [], true), Order(g, rank, root, [], false);
    OrderProps(g, rank, root, [], true);
    OrderProps(g, rank, root, [], false);
    OrderElems(g, rank, root, [], true);
    OrderElems(g, rank, root, [], false);
    TopoNoRepeat(g, rank, a);
    TopoNoRepeat(g, rank, b);
    SumOfElems(g, L, a, b);
  }

  // ----- distances

  ghost predicate FlagsLeq(L: Flags, L': Flags) {
    && |L.jt| == |L'.jt| && |L.jf| == |L'.jf|
    && (forall b :: 0 <= b < |L.jt| ==> L.jt[b] <= L'.jt[b])
    && (forall b :: 0 <= b < |L.jf| ==> L.jf[b] <= L'.jf[b])
  }

  /** How far the branch of `b` is from the start of `t` when `b` comes before it. */
  ghost function Dist(g: Graph, L: Flags, list: seq<nat>, b: nat, t: nat): int
    requires b < |g|
  {
    SumTo(g, L, list, b) - SumTo(g, L, list, t) - |Emit(g[b].stmts)| - 1
  }

  lemma {:induction false} GapGrows(g: Graph, L: Flags, L': Flags, list: seq<nat>, t: nat)
    requires FlagsLeq(L, L') && t in Elems(list)
    ensures Sum(g, L, list) - SumTo(g, L, list, t) <= Sum(g, L', list) - SumTo(g, L', list, t)
  {
    if list[|list| - 1] != t {
      GapGrows(g, L, L', list[..|list| - 1], t);
    }
  }

  /** Giving more branches a long jump never brings a block and its successor closer. */
  lemma {:induction false} DistGrows(g: Graph, rank: Rank, L: Flags, L': Flags, list: seq<nat>, b: nat, t: nat)
    requires FlagsLeq(L, L') && Topo(g, rank, list) && b in Elems(list) && b < |g| && !g[b].Leaf()
    requires t == g[b].jt || t == g[b].jf
    ensures Dist(g, L, list, b, t) <= Dist(g, L', list, b, t)
  {
    var l, c := list[..|list| - 1], list[|list| - 1];
    if c == b {
      GapGrows(g, L, L', l, t);
    } else {
      TopoSuccs(g, rank, l, b);
      DistGrows(g, rank, L, L', l, b, t);
    }
  }

  lemma {:induction false} TopoSuccs(g: Graph, rank: Rank, list: seq<nat>, b: nat)
    requires Topo(g, rank, list) && b in Elems(list)
    ensures b in rank && b < |g| && (!g[b].Leaf() ==> g[b].jt in Elems(list) && g[b].jf in Elems(list))
  {
    if list[|list| - 1] != b {
      TopoSuccs(g, rank, list[..|list| - 1], b);
    }
  }

  ghost predicate JustifiedAt(g: Graph, L: Flags, list: seq<nat>, b: nat)
    requires b < |g| == |L.jt| == |L.jf|
  {
    && (L.jt[b] == 1 ==> g[b].jt >= 0 && Dist(g, L, list, b, g[b].jt) >= 256)
    && (L.jf[b] == 1 ==> g[b].jf >= 0 && Dist(g, L, list, b, g[b].jf) >= 256)
  }

  /** A long jump is given only to a branch whose target is out of reach. */
  ghost predicate Justified(g: Graph, L: Flags, list: seq<nat>) {
    && FlagsOk(g, L)
    && forall b {:trigger JustifiedAt(g, L, list, b)} :: b in Elems(list) && b < |g| ==> JustifiedAt(g, L, list, b)
  }

  // ----- code

  predicate JumpsTo(code: seq<Insn>, at: nat, target: int) {
    && at < |code| && code[at].code == Ja && code[at].jt == 0 && code[at].jf == 0
    && at + 1 + code[at].k == target
  }

  /** The final instruction of block `b`, at `pc`: a short branch reaches the
      successor itself; a long one reaches a jump placed just after the branch, the
      false one after the true one. */
  ghost predicate BranchLaid(code: seq<Insn>, g: Graph, L: Flags, off: seq<int>, b: nat, pc: nat)
    requires b < |g| == |off| == |L.jt| == |L.jf| && pc < |code|
  {
    var n, i := g[b], code[pc];
    && i.code == n.s.code && i.k == n.s.k
    && (n.Leaf() ==> i.jt == 0 && i.jf == 0)
    && (!n.Leaf() ==>
          && 0 <= n.jt < |g| && 0 <= n.jf < |g|
          && (if L.jt[b] == 0 then pc + 1 + i.jt == off[n.jt]
              else i.jt == 0 && JumpsTo(code, pc + 1, off[n.jt]))
          && (if L.jf[b] == 0 then pc + 1 + i.jf == off[n.jf]
              else i.jf == L.jt[b] && JumpsTo(code, pc + 1 + L.jt[b], off[n.jf])))
  }

  ghost predicate Laid(code: seq<Insn>, g: Graph, L: Flags, off: seq<int>, b: nat)
    requires b < |g| == |off| == |L.jt| == |L.jf|
  {
    var n := |Emit(g[b].stmts)|;
    && 0 <= off[b] && off[b] + BlockSize(g, L, b) <= |code|
    && code[off[b]..off[b] + n] == Emit(g[b].stmts)
    && BranchLaid(code, g, L, off, b, off[b] + n)
  }

  lemma {:induction false} EmitRuns(code: seq<Insn>, ss: seq<Stmt>, at: nat, st: Store, p: Packet)
    requires forall k :: 0 <= k < |ss| ==> Plain(ss[k])
    requires at + |Emit(ss)| <= |code| && code[at..at + |Emit(ss)|] == Emit(ss)
    ensures RunFlat(code, at, st, p) ==
            (match ExecList(ss, st, p)
             case None => None
             case Some(st1) => RunFlat(code, at + |Emit(ss)|, st1, p))
    decreases |ss|
  {
    if ss != [] {
      var s := ss[0];
      if s.code.Nop? {
        EmitRuns(code, ss[1..], at, st, p);
      } else {
        var rest := Emit(ss[1..]);
        assert Emit(ss)[0] == code[at] && Emit(ss)[1..] == rest;
        assert code[at + 1..at + 1 + |rest|] == code[at..at + |Emit(ss)|][1..];
        match Exec(s, st, p) {
          case None =>
          case Some(st1) => EmitRuns(code, ss[1..], at + 1, st1, p);
        }
      }
    }
  }

  /** Whether the branch is short or long, control arrives at the successor. */
  lemma BranchRuns(code: seq<Insn>, g: Graph, L: Flags, off: seq<int>, b: nat, pc: nat, st: Store, p: Packet)
    requires b < |g| == |off| == |L.jt| == |L.jf| && pc < |code| && BranchLaid(code, g, L, off, b, pc)
    requires !g[b].Leaf() && TwoWay(g[b].s)
    ensures
      var t := off[if Holds(g[b].s, st) then g[b].jt else g[b].jf];
      t >= 0 && RunFlat(code, pc, st, p) == RunFlat(code, t, st, p)
  {
    assert Stmt(code[pc].code, code[pc].k) == g[b].s;
  }

  ghost predicate Closed(g: Graph, S: set<nat>) {
    forall c :: c in S ==> c < |g| && (!g[c].Leaf() ==> g[c].jt in S && g[c].jf in S)
  }

  ghost predicate AllLaid(code: seq<Insn>, g: Graph, L: Flags, off: seq<int>, S: set<nat>)
    requires |g| == |off| == |L.jt| == |L.jf|
  {
    && (forall c :: c in S ==> c < |g|)
    && (forall c {:trigger Laid(code, g, L, off, c)} :: c in S ==> Laid(code, g, L, off, c))
  }

  /** Code in which every block of a closed set is laid out gives the verdict of the
      graph. */
  lemma {:induction false} LaidRuns(code: seq<Insn>, g: Graph, rank: Rank, L: Flags, off: seq<int>,
                                    S: set<nat>, b: nat, st: Store, p: Packet)
    requires WellFormed(g, rank) && |g| == |off| == |L.jt| == |L.jf| && FlagsOk(g, L)
    requires AllLaid(code, g, L, off, S) && Closed(g, S) && b in S && S <= rank.Keys
    ensures off[b] >= 0 && RunFlat(code, off[b], st, p) == Run(g, rank, b, st, p)
    decreases rank[b]
  {
    assert NodeOk(g, rank, b);
    assert Laid(code, g, L, off, b);
    EmitRuns(code, g[b].stmts, off[b], st, p);
    match ExecList(g[b].stmts, st, p) {
      case None =>
      case Some(st1) =>
        if !g[b].Leaf() {
          BranchRuns(code, g, L, off, b, off[b] + |Emit(g[b].stmts)|, st1, p);
          LaidRuns(code, g, rank, L, off, S, g[b].jt, st1, p);
          LaidRuns(code, g, rank, L, off, S, g[b].jf, st1, p);
        }
    }
  }

  // ----- building the array from its end

  ghost predicate PlacedAt(code: seq<Insn>, g: Graph, rank: Rank, L: Flags, off: seq<int>, full: seq<nat>, x: nat)
    requires |g| == |off| == |L.jt| == |L.jf|
  {
    x < |g| && off[x] == |code| - SumTo(g, L, full, x) && Laid(code, g, L, off, x)
  }

  /** The blocks of `done`, an initial part of the whole order, are in place. */
  ghost predicate Built(code: seq<Insn>, g: Graph, rank: Rank, L: Flags, off: seq<int>, full: seq<nat>,
                        done: seq<nat>) {
    && |g| == |off| == |L.jt| == |L.jf|
    && Topo(g, rank, full) && Prefix(done, full) && |code| == Sum(g, L, full)
    && (forall x {:trigger PlacedAt(code, g, rank, L, off, full, x)} ::
      x in Elems(done) ==> PlacedAt(code, g, rank, L, off, full, x))
  }

  /** A laid-out block depends only on code at or above its own offset. */
  lemma LaidFrame(code: seq<Insn>, code': seq<Insn>, g: Graph, L: Flags, off: seq<int>, off': seq<int>, x: nat)
    requires x < |g| == |off| == |off'| == |L.jt| == |L.jf| && |code| == |code'|
    requires Laid(code, g, L, off, x) && off'[x] == off[x] && L.jt[x] <= 1 && L.jf[x] <= 1
    requires forall i :: off[x] <= i < |code| ==> code'[i] == code[i]
    requires !g[x].Leaf() ==> off'[g[x].jt] == off[g[x].jt] && off'[g[x].jf] == off[g[x].jf]
    ensures Laid(code', g, L, off', x)
  {
    var n := |Emit(g[x].stmts)|;
    assert code'[off[x]..off[x] + n] == code[off[x]..off[x] + n];
  }

  lemma {:induction false} PrefixTopo(g: Graph, rank: Rank, done: seq<nat>, full: seq<nat>)
    requires Topo(g, rank, full) && Prefix(done, full)
    ensures Topo(g, rank, done)
    decreases |full|
  {
    if |done| < |full| {
      assert full[..|full| - 1][..|done|] == done;
      PrefixTopo(g, rank, done, full[..|full| - 1]);
    } else {
      assert done == full;
    }
  }

  /** One more block is in place: it was written below everything placed before. */
  lemma BuiltStep(code: seq<Insn>, code': seq<Insn>, g: Graph, rank: Rank, L: Flags, off: seq<int>, full: seq<nat>,
                  done: seq<nat>, p: nat)
    requires Built(code, g, rank, L, off, full, done) && FlagsOk(g, L) && Prefix(done + [p], full) && p < |g|
    requires |code'| == |code|
    requires forall i :: 0 <= i < |code| && i >= |code| - Sum(g, L, done) ==> code'[i] == code[i]
    requires
      var off' := off[p := |code| - Sum(g, L, done + [p])];
      Laid(code', g, L, off', p)
    ensures Built(code', g, rank, L, off[p := |code| - Sum(g, L, done + [p])], full, done + [p])
  {
    var off' := off[p := |code| - Sum(g, L, done + [p])];
    assert (done + [p])[..|done|] == done;
    PrefixTopo(g, rank, done + [p], full);
    forall x | x in Elems(done + [p]) ensures PlacedAt(code', g, rank, L, off', full, x) {
      SumToPrefix(g, rank, L, done + [p], full, x);
      if x != p {
        assert PlacedAt(code, g, rank, L, off, full, x);
        SumToPrefix(g, rank, L, done, full, x);
        TopoSuccs(g, rank, done, x);
        LaidFrame(code, code', g, L, off, off', x);
      }
    }
  }

  /** The successors of a placed block are where its branch distances say. */
  lemma DistOfOffsets(code: seq<Insn>, g: Graph, rank: Rank, L: Flags, off: seq<int>, full: seq<nat>, done: seq<nat>,
                      p: nat, t: nat)
    requires Built(code, g, rank, L, off, full, done) && Prefix(done + [p], full) && p < |g| && t in Elems(done)
    ensures t < |g| &&
            off[t] - (|code| - Sum(g, L, done + [p]) + |Emit(g[p].stmts)|) - 1 == Dist(g, L, full, p, t)
    ensures Dist(g, L, full, p, t) >= BlockSize(g, L, p) - |Emit(g[p].stmts)| - 1
  {
    assert PlacedAt(code, g, rank, L, off, full, t);
    assert (done + [p])[..|done|] == done;
    PrefixTopo(g, rank, done + [p], full);
    SumToPrefix(g, rank, L, done + [p], full, p);
    SumToPrefix(g, rank, L, done, full, t);
  }

  // ----- giving one more branch a long jump

  function Total(s: seq<nat>): nat {
    if s == [] then 0 else Total(s[..|s| - 1]) + s[|s| - 1]
  }

  /** Room for each block: its statements, its branch and two long jumps. */
  function Weights(g: Graph): seq<nat> {
    seq(|g|, b requires 0 <= b < |g| => |g[b].stmts| + 3)
  }

  lemma {:induction false} TotalZero(w: seq<nat>, x: nat)
    requires x < |w|
    ensures Total(w[x := 0]) == Total(w) - w[x]
  {
    if x == |w| - 1 {
      assert w[x := 0][..|w| - 1] == w[..|w| - 1];
    } else {
      TotalZero(w[..|w| - 1], x);
      assert w[x := 0][..|w| - 1] == w[..|w| - 1][x := 0];
    }
  }

  lemma {:induction false} TotalUpdate(s: seq<nat>, i: nat)
    requires i < |s|
    ensures Total(s[i := s[i] + 1]) == Total(s) + 1
  {
    var s' := s[i := s[i] + 1];
    if i == |s| - 1 {
      assert s'[..|s| - 1] == s[..|s| - 1];
    } else {
      TotalUpdate(s[..|s| - 1], i);
      assert s'[..|s| - 1] == s[..|s| - 1][i := s[i] + 1];
    }
  }

  lemma {:induction false} TotalBound(s: seq<nat>)
    requires forall i :: 0 <= i < |s| ==> s[i] <= 1
    ensures Total(s) <= |s|
  {
    if s != [] {
      TotalBound(s[..|s| - 1]);
    }
  }

  ghost function Used(L: Flags): nat {
    Total(L.jt) + Total(L.jf)
  }

  lemma JustifyGrows(g: Graph, rank: Rank, L: Flags, L': Flags, full: seq<nat>, b: nat)
    requires FlagsLeq(L, L') && Topo(g, rank, full) && b in Elems(full) && b < |g| == |L.jt| == |L.jf| && !g[b].Leaf()
    requires g[b].jt >= 0 && g[b].jf >= 0
    requires L'.jt[b] == 1 ==> Dist(g, L, full, b, g[b].jt) >= 256
    requires L'.jf[b] == 1 ==> Dist(g, L, full, b, g[b].jf) >= 256
    ensures JustifiedAt(g, L', full, b)
  {
    DistGrows(g, rank, L, L', full, b, g[b].jt);
    DistGrows(g, rank, L, L', full, b, g[b].jf);
  }

  predicate OneMore(L: Flags, L': Flags, p: nat)
    requires p < |L.jt| == |L.jf|
  {
    || (L.jt[p] == 0 && L' == L.(jt := L.jt[p := 1]))
    || (L.jf[p] == 0 && L' == L.(jf := L.jf[p := 1]))
  }

  lemma OneMoreUsed(L: Flags, L': Flags, p: nat)
    requires p < |L.jt| == |L.jf| && OneMore(L, L', p)
    ensures FlagsLeq(L, L') && Used(L') == Used(L) + 1
  {
    if L'.jt != L.jt {
      TotalUpdate(L.jt, p);
    } else {
      TotalUpdate(L.jf, p);
    }
  }

  /** The flag set by a failed pass was needed, and those set before still are. */
  lemma JustifyMore(g: Graph, rank: Rank, L: Flags, L': Flags, full: seq<nat>, p: nat)
    requires WellFormed(g, rank) && Justified(g, L, full) && Topo(g, rank, full) && p in Elems(full) && p < |g|
    requires !g[p].Leaf() && OneMore(L, L', p) && g[p].jt >= 0 && g[p].jf >= 0
    requires L'.jt[p] == 1 ==> Dist(g, L, full, p, g[p].jt) >= 256
    requires L'.jf[p] == 1 ==> Dist(g, L, full, p, g[p].jf) >= 256
    ensures Justified(g, L', full)
  {
    OneMoreUsed(L, L', p);
    forall b | b in Elems(full) && b < |g| ensures JustifiedAt(g, L', full, b) {
      TopoSuccs(g, rank, full, b);
      assert NodeOk(g, rank, b);
      assert JustifiedAt(g, L, full, b);
      if !g[b].Leaf() {
        JustifyGrows(g, rank, L, L', full, b);
      }
    }
  }

  // ----- the finished program

  /** Every branch long: an upper bound for any choice of long jumps. */
  ghost function AllLong(g: Graph): Flags {
    Flags(seq(|g|, i => 1), seq(|g|, i => 1))
  }

  lemma {:induction false} SumGrows(g: Graph, L: Flags, L': Flags, list: seq<nat>)
    requires FlagsLeq(L, L')
    ensures Sum(g, L, list) <= Sum(g, L', list)
  {
    if list != [] {
      SumGrows(g, L, L', list[..|list| - 1]);
    }
  }

  lemma TopoClosed(g: Graph, rank: Rank, full: seq<nat>)
    requires Topo(g, rank, full)
    ensures Closed(g, Elems(full)) && Elems(full) <= rank.Keys
  {
    forall c | c in Elems(full)
      ensures c in rank && c < |g| && (!g[c].Leaf() ==> g[c].jt in Elems(full) && g[c].jf in Elems(full))
    {
      TopoSuccs(g, rank, full, c);
    }
  }

  /** A finished array starts with the root and runs like the graph. */
  lemma BuiltRuns(code: seq<Insn>, g: Graph, rank: Rank, L: Flags, off: seq<int>, full: seq<nat>, root: nat)
    requires WellFormed(g, rank) && FlagsOk(g, L) && root in rank && full != [] && full[|full| - 1] == root
    requires Built(code, g, rank, L, off, full, full)
    ensures forall st, p :: RunFlat(code, 0, st, p) == Run(g, rank, root, st, p)
  {
    assert PlacedAt(code, g, rank, L, off, full, root);
    TopoClosed(g, rank, full);
    forall c | c in Elems(full) ensures Laid(code, g, L, off, c) {
      assert PlacedAt(code, g, rank, L, off, full, c);
    }
    forall st, p ensures RunFlat(code, 0, st, p) == Run(g, rank, root, st, p) {
      LaidRuns(code, g, rank, L, off, Elems(full), root, st, p);
    }
  }

  // ----- the finished program passes the kernel's check

  /** Every instruction emitted is one of the statements, */
  lemma {:induction false} EmitFrom(ss: seq<Stmt>, i: nat) returns (k: nat)
    requires i < |Emit(ss)|
    ensures k < |ss| && Emit(ss)[i] == Insn(ss[k].code, 0, 0, ss[k].k)
  {
    if ss[0].code.Nop? {
      k := EmitFrom(ss[1..], i);
      k := k + 1;
    } else if i > 0 {
      k := EmitFrom(ss[1..], i - 1);
      k := k + 1;
    } else {
      k := 0;
    }
  }

  /** and every statement that has not been deleted is emitted. */
  lemma {:induction false} EmitOf(ss: seq<Stmt>, k: nat) returns (i: nat)
    requires k < |ss| && !ss[k].code.Nop?
    ensures i < |Emit(ss)| && Emit(ss)[i] == Insn(ss[k].code, 0, 0, ss[k].k)
  {
    if k == 0 {
      i := 0;
    } else {
      i := EmitOf(ss[1..], k - 1);
      i := if ss[0].code.Nop? then i else i + 1;
    }
  }

  /** Every instruction of the array belongs to a placed block, no slot being left over. */
  lemma {:induction false} Covered(code: seq<Insn>, g: Graph, rank: Rank, L: Flags, off: seq<int>, full: seq<nat>,
                                   done: seq<nat>, i: nat) returns (b: nat)
    requires Built(code, g, rank, L, off, full, full) && Prefix(done, full)
    requires |code| - Sum(g, L, done) <= i < |code|
    ensures b in Elems(done) && PlacedAt(code, g, rank, L, off, full, b) && off[b] <= i < off[b] + BlockSize(g, L, b)
  {
    var l, c := done[..|done| - 1], done[|done| - 1];
    assert full[..|l|] == l;
    if i >= |code| - Sum(g, L, l) {
      b := Covered(code, g, rank, L, off, full, l, i);
    } else {
      b := c;
      PrefixTopo(g, rank, done, full);
      PrefixElems(done, full);
      SumToPrefix(g, rank, L, done, full, c);
      assert PlacedAt(code, g, rank, L, off, full, c);
    }
  }

  lemma BranchValid(code: seq<Insn>, g: Graph, L: Flags, off: seq<int>, b: nat, pc: nat, i: nat)
    requires b < |g| == |off| == |L.jt| == |L.jf| && pc < |code| && BranchLaid(code, g, L, off, b, pc)
    requires L.jt[b] <= 1 && L.jf[b] <= 1 && (g[b].Leaf() ==> L.jt[b] == L.jf[b] == 0)
    requires !g[b].Leaf() ==> off[g[b].jt] < |code| && off[g[b].jf] < |code|
    requires if g[b].Leaf() then g[b].s.code.RetK? else TwoWay(g[b].s)
    requires pc <= i <= pc + L.jt[b] + L.jf[b] && pc + L.jt[b] + L.jf[b] < |code|
    ensures ValidInsn(code, i)
  {
  }

  /** No block of `S` divides by the constant 0. */
  predicate ZeroFree(g: Graph, S: set<nat>) {
    forall b, k {:trigger g[b].stmts[k]} :: b in S && b < |g| && 0 <= k < |g[b].stmts| ==>
      !ZeroDivision(g[b].stmts[k].code, g[b].stmts[k].k)
  }

  lemma BuiltValid(code: seq<Insn>, g: Graph, rank: Rank, L: Flags, off: seq<int>, full: seq<nat>, i: nat)
    requires WellFormed(g, rank) && FlagsOk(g, L) && Built(code, g, rank, L, off, full, full) && i < |code|
    ensures ZeroDivision(code[i].code, code[i].k) <==> !ValidInsn(code, i)
    ensures ZeroFree(g, Elems(full)) ==> ValidInsn(code, i)
  {
    var b := Covered(code, g, rank, L, off, full, full, i);
    TopoSuccs(g, rank, full, b);
    assert NodeOk(g, rank, b);
    var n := |Emit(g[b].stmts)|;
    if i < off[b] + n {
      StatementValid(code, g, b, off[b], i);
    } else {
      if !g[b].Leaf() {
        assert PlacedAt(code, g, rank, L, off, full, g[b].jt) && PlacedAt(code, g, rank, L, off, full, g[b].jf);
      }
      BranchValid(code, g, L, off, b, off[b] + n, i);
    }
  }

  /** An instruction made from a statement is valid unless that divides by the constant 0. */
  lemma StatementValid(code: seq<Insn>, g: Graph, b: nat, at: int, i: nat)
    requires b < |g| && 0 <= at <= i < at + |Emit(g[b].stmts)| <= |code|
    requires code[at..at + |Emit(g[b].stmts)|] == Emit(g[b].stmts)
    requires forall k {:trigger g[b].stmts[k]} :: 0 <= k < |g[b].stmts| ==> Plain(g[b].stmts[k])
    ensures ZeroDivision(code[i].code, code[i].k) <==> !ValidInsn(code, i)
    ensures (forall k {:trigger g[b].stmts[k]} ::
      0 <= k < |g[b].stmts| ==> !ZeroDivision(g[b].stmts[k].code, g[b].stmts[k].k)) ==>
      ValidInsn(code, i)
  {
    assert code[at..at + |Emit(g[b].stmts)|][i - at] == code[i];
    var k := EmitFrom(g[b].stmts, i - at);
    assert Plain(g[b].stmts[k]);
  }

  /** The finished program passes the validity check exactly when it does not divide by
      the constant 0, that is, when the graph does not. */
  lemma BuiltValidates(code: seq<Insn>, g: Graph, rank: Rank, L: Flags, off: seq<int>, full: seq<nat>)
    requires WellFormed(g, rank) && FlagsOk(g, L) && full != [] && Built(code, g, rank, L, off, full, full)
    ensures Validates(code) <==> NoZeroDivision(code)
    ensures NoZeroDivision(code) <==> ZeroFree(g, Elems(full))
  {
    var b := full[0];
    assert full[..1] == [b] && [b][..0] == [];
    PrefixTopo(g, rank, [b], full);
    PrefixElems([b], full);
    assert Elems([b]) == {b};
    assert PlacedAt(code, g, rank, L, off, full, b);
    SumToPrefix(g, rank, L, [b], full, b);
    forall i | 0 <= i < |code|
      ensures (ZeroDivision(code[i].code, code[i].k) <==> !ValidInsn(code, i)) &&
        (ZeroFree(g, Elems(full)) ==> ValidInsn(code, i)) {
      BuiltValid(code, g, rank, L, off, full, i);
    }
    if NoZeroDivision(code) {
      forall c, k | c in Elems(full) && c < |g| && 0 <= k < |g[c].stmts|
        ensures !ZeroDivision(g[c].stmts[k].code, g[c].stmts[k].k) {
        StatementPlaced(code, g, rank, L, off, full, c, k);
      }
    }
  }

  lemma StatementPlaced(code: seq<Insn>, g: Graph, rank: Rank, L: Flags, off: seq<int>, full: seq<nat>, b: nat, k: nat)
    requires Built(code, g, rank, L, off, full, full) && b in Elems(full) && b < |g| && k < |g[b].stmts|
    requires NoZeroDivision(code)
    ensures !ZeroDivision(g[b].stmts[k].code, g[b].stmts[k].k)
  {
    assert PlacedAt(code, g, rank, L, off, full, b);
    if !g[b].stmts[k].code.Nop? {
      var i := EmitOf(g[b].stmts, k);
      var n := |Emit(g[b].stmts)|;
      assert code[off[b]..off[b] + n][i] == code[off[b] + i];
    }
  }
}
