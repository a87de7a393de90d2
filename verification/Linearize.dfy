/** Flattening the block graph into the instruction array: a depth-first traversal
    fills the array from its end, and is repeated with one more long jump reserved
    each time some branch offset does not fit in eight bits. */
module Linearize {
  import opened Bpf
  import opened Flow
  import opened Lists
  import opened Layout
  import opened Seal

  ghost predicate MarkAt(mark: seq<nat>, cur: nat, done: seq<nat>, stack: set<nat>, i: nat)
    requires i < |mark|
  {
    mark[i] <= cur && (mark[i] == cur <==> i in Elems(done) || i in stack)
  }

  /** The marked blocks are the finished ones and those being visited. */
  ghost predicate Marks(g: Graph, mark: seq<nat>, cur: nat, done: seq<nat>, stack: set<nat>) {
    && |mark| == |g|
    && (forall i {:trigger MarkAt(mark, cur, done, stack, i)} :: 0 <= i < |g| ==> MarkAt(mark, cur, done, stack, i))
  }

  /** The blocks being visited are above `p`. */
  ghost predicate Above(g: Graph, rank: Rank, stack: set<nat>, p: int) {
    forall x :: x in stack ==> x in rank && (p in rank ==> rank[p] < rank[x])
  }

  lemma MarksEnter(g: Graph, rank: Rank, mark: seq<nat>, cur: nat, done: seq<nat>, stack: set<nat>, p: nat)
    requires WellFormed(g, rank) && Marks(g, mark, cur, done, stack) && p in rank && Above(g, rank, stack, p)
    ensures Marks(g, mark[p := cur], cur, done, stack + {p})
    ensures Above(g, rank, stack + {p}, g[p].jt) && Above(g, rank, stack + {p}, g[p].jf)
    ensures g[p].jt == -1 || (g[p].jt in rank && rank[g[p].jt] < rank[p])
    ensures g[p].jf == -1 || (g[p].jf in rank && rank[g[p].jf] < rank[p])
    ensures mark[p] == cur <==> p in Elems(done)
  {
    assert NodeOk(g, rank, p);
    assert MarkAt(mark, cur, done, stack, p);
    var mark', stack' := mark[p := cur], stack + {p};
    forall i | 0 <= i < |g| ensures MarkAt(mark', cur, done, stack', i) {
      assert MarkAt(mark, cur, done, stack, i);
    }
  }

  lemma MarksLeave(g: Graph, mark: seq<nat>, cur: nat, done: seq<nat>, stack: set<nat>, p: nat)
    requires Marks(g, mark, cur, done, stack + {p}) && p < |g|
    ensures Marks(g, mark, cur, done + [p], stack)
  {
    assert (done + [p])[..|done|] == done;
    var done' := done + [p];
    forall i | 0 <= i < |g| ensures MarkAt(mark, cur, done', stack, i) {
      assert MarkAt(mark, cur, done, stack + {p}, i);
    }
  }

  lemma MarksBound(g: Graph, mark: seq<nat>, cur: nat, done: seq<nat>, stack: set<nat>)
    requires Marks(g, mark, cur, done, stack)
    ensures forall i :: 0 <= i < |g| ==> mark[i] <= cur
  {
    forall i | 0 <= i < |g| ensures mark[i] <= cur {
      assert MarkAt(mark, cur, done, stack, i);
    }
  }

  /** Visiting `p` is visiting its false successor, then its true one, then placing it. */
  lemma OrderParts(g: Graph, rank: Rank, p: nat, done: seq<nat>) returns (d1: seq<nat>, d2: seq<nat>)
    requires WellFormed(g, rank) && p in rank && p !in Elems(done)
    ensures (g[p].jt == -1 || g[p].jt in rank) && (g[p].jf == -1 || g[p].jf in rank)
    ensures d1 == Order(g, rank, g[p].jf, done, false) && d2 == Order(g, rank, g[p].jt, d1, false)
    ensures Order(g, rank, p, done, false) == d2 + [p]
  {
    assert NodeOk(g, rank, p);
    d1 := Order(g, rank, g[p].jf, done, false);
    d2 := Order(g, rank, g[p].jt, d1, false);
  }

  /** The order through each stage of visiting `p` is an initial part of the whole. */
  lemma ConvertPrefix(g: Graph, rank: Rank, p: nat, done: seq<nat>, full: seq<nat>) returns (d1: seq<nat>, d2: seq<nat>)
    requires WellFormed(g, rank) && p in rank && Topo(g, rank, done) && p !in Elems(done)
    requires Prefix(Order(g, rank, p, done, false), full)
    ensures (g[p].jt == -1 || g[p].jt in rank) && (g[p].jf == -1 || g[p].jf in rank)
    ensures d1 == Order(g, rank, g[p].jf, done, false) && d2 == Order(g, rank, g[p].jt, d1, false)
    ensures Prefix(d1, full) && Prefix(d2, full)
    ensures Order(g, rank, p, done, false) == d2 + [p] && Prefix(d2 + [p], full) && Topo(g, rank, d2 + [p])
    ensures !g[p].Leaf() ==> g[p].jt in Elems(d2) && g[p].jf in Elems(d2)
  {
    assert NodeOk(g, rank, p);
    d1, d2 := OrderParts(g, rank, p, done);
    OrderProps(g, rank, p, done, false);
    OrderProps(g, rank, g[p].jf, done, false);
    OrderProps(g, rank, g[p].jt, d1, false);
    PrefixParts(d1, d2, p, full);
  }

  lemma PrefixParts(d1: seq<nat>, d2: seq<nat>, p: nat, full: seq<nat>)
    requires Prefix(d1, d2) && Prefix(d2 + [p], full)
    ensures Elems(d1) <= Elems(d2) && Prefix(d1, full) && Prefix(d2, full)
  {
    PrefixElems(d1, d2);
    PrefixExtend(d2, d2, p);
    PrefixTrans(d2, d2 + [p], full);
    PrefixTrans(d1, d2, full);
  }

  /** When `p` is placed its successors are, beyond the room it takes; a long jump is
      reserved only where it is needed. */
  lemma BranchReady(code: seq<Insn>, g: Graph, rank: Rank, L: Flags, off: seq<int>, full: seq<nat>,
                    done: seq<nat>, p: nat)
    requires WellFormed(g, rank) && Justified(g, L, full) && Built(code, g, rank, L, off, full, done)
    requires p in rank && Prefix(done + [p], full)
    requires !g[p].Leaf() ==> g[p].jt in Elems(done) && g[p].jf in Elems(done)
    ensures p in Elems(full)
    ensures !g[p].Leaf() ==>
      var pc := |code| - Sum(g, L, done + [p]) + |Emit(g[p].stmts)|;
      && 0 <= g[p].jt < |g| && 0 <= g[p].jf < |g|
      && pc + L.jt[p] + L.jf[p] < off[g[p].jt] < |code| && pc + L.jt[p] + L.jf[p] < off[g[p].jf] < |code|
      && off[g[p].jt] - pc - 1 == Dist(g, L, full, p, g[p].jt) && off[g[p].jf] - pc - 1 == Dist(g, L, full, p, g[p].jf)
      && (L.jt[p] == 1 ==> off[g[p].jt] - pc - 1 >= 256)
      && (L.jf[p] == 1 ==> off[g[p].jf] - pc - 1 >= 256)
  {
    assert (done + [p])[..|done|] == done;
    PrefixElems(done + [p], full);
    assert JustifiedAt(g, L, full, p);
    assert NodeOk(g, rank, p);
    if !g[p].Leaf() {
      DistOfOffsets(code, g, rank, L, off, full, done, p, g[p].jt);
      DistOfOffsets(code, g, rank, L, off, full, done, p, g[p].jf);
      assert PlacedAt(code, g, rank, L, off, full, g[p].jt) && PlacedAt(code, g, rank, L, off, full, g[p].jf);
    }
  }

  lemma SumStep(g: Graph, L: Flags, done: seq<nat>, p: nat)
    ensures Sum(g, L, done + [p]) == Sum(g, L, done) + BlockSize(g, L, p)
  {
    assert (done + [p])[..|done|] == done;
  }

  lemma {:induction false} NoFlags(s: seq<nat>)
    requires forall i :: 0 <= i < |s| ==> s[i] == 0
    ensures Total(s) == 0
  {
    if s != [] {
      NoFlags(s[..|s| - 1]);
    }
  }

  lemma NoFlagsUsed(L: Flags)
    requires (forall i :: 0 <= i < |L.jt| ==> L.jt[i] == 0) && (forall i :: 0 <= i < |L.jf| ==> L.jf[i] == 0)
    ensures Used(L) == 0
  {
    NoFlags(L.jt);
    NoFlags(L.jf);
  }

  lemma UsedBound(L: Flags)
    requires (forall i :: 0 <= i < |L.jt| ==> L.jt[i] <= 1) && (forall i :: 0 <= i < |L.jf| ==> L.jf[i] <= 1)
    ensures Used(L) <= |L.jt| + |L.jf|
  {
    TotalBound(L.jt);
    TotalBound(L.jf);
  }

  // ----- what has been emitted

  /** The array, where blocks have been put, how far down it is filled, the marks, and the
      long jumps reserved. */
  datatype Output = Output(code: seq<Insn>, off: seq<int>, tail: int, mark: seq<nat>, cur: nat, L: Flags)

  ghost predicate EmittedBody(g: Graph, rank: Rank, o: Output, done: seq<nat>, stack: set<nat>, full: seq<nat>) {
    && WellFormed(g, rank) && Marks(g, o.mark, o.cur, done, stack) && Topo(g, rank, done)
    && Justified(g, o.L, full) && Built(o.code, g, rank, o.L, o.off, full, done)
    && o.tail == |o.code| - Sum(g, o.L, done) && |o.code| < WORD_LIMIT
  }

  /** The same, kept folded. */
  ghost predicate EmittedAs(g: Graph, rank: Rank, o: Output, done: seq<nat>, stack: set<nat>, full: seq<nat>) {
    forall u {:trigger Opened(u)} :: Opened(u) ==> EmittedBody(g, rank, o, done, stack, full)
  }

  lemma EmittedMarks(g: Graph, rank: Rank, o: Output, done: seq<nat>, stack: set<nat>, full: seq<nat>)
    requires EmittedAs(g, rank, o, done, stack, full)
    ensures WellFormed(g, rank) && Topo(g, rank, done) && |o.mark| == |g| &&
      forall i :: 0 <= i < |g| ==> o.mark[i] <= o.cur
  {
    assert Opened(Key);
    MarksBound(g, o.mark, o.cur, done, stack);
  }

  lemma NothingYet(g: Graph, rank: Rank, o: Output, full: seq<nat>)
    requires WellFormed(g, rank) && Marks(g, o.mark, o.cur, [], {}) && Topo(g, rank, full) && Justified(g, o.L, full)
    requires |o.off| == |g| && |o.code| == o.tail == Sum(g, o.L, full) < WORD_LIMIT
    ensures EmittedAs(g, rank, o, [], {}, full)
  {
  }

  lemma AllBuilt(g: Graph, rank: Rank, o: Output, full: seq<nat>)
    requires EmittedAs(g, rank, o, full, {}, full)
    ensures Justified(g, o.L, full) && Built(o.code, g, rank, o.L, o.off, full, full)
  {
    assert Opened(Key);
  }

  /** There is room for a block whose successors have been emitted, and they are above. */
  lemma RoomAt(g: Graph, rank: Rank, o: Output, done: seq<nat>, stack: set<nat>, full: seq<nat>, p: nat)
    requires EmittedAs(g, rank, o, done, stack, full) && WellFormed(g, rank) && p in rank && p < |g| &&
      Prefix(done + [p], full)
    requires !g[p].Leaf() ==> g[p].jt in Elems(done) && g[p].jf in Elems(done)
    ensures FlagsOk(g, o.L) && p in Elems(full) && |o.code| < WORD_LIMIT && |o.off| == |g|
    ensures o.tail - BlockSize(g, o.L, p) == |o.code| - Sum(g, o.L, done + [p]) >= 0 && o.tail <= |o.code|
    ensures !g[p].Leaf() ==>
      var pc := o.tail - BlockSize(g, o.L, p) + |Emit(g[p].stmts)|;
      && 0 <= g[p].jt < |g| && 0 <= g[p].jf < |g| && g[p].jt != p && g[p].jf != p
      && pc + o.L.jt[p] + o.L.jf[p] < o.off[g[p].jt] < |o.code|
      && pc + o.L.jt[p] + o.L.jf[p] < o.off[g[p].jf] < |o.code|
      && o.off[g[p].jt] - pc - 1 == Dist(g, o.L, full, p, g[p].jt) &&
        o.off[g[p].jf] - pc - 1 == Dist(g, o.L, full, p, g[p].jf)
      && (o.L.jt[p] == 1 ==> o.off[g[p].jt] - pc - 1 >= 256)
      && (o.L.jf[p] == 1 ==> o.off[g[p].jf] - pc - 1 >= 256)
  {
    assert Opened(Key);
    assert NodeOk(g, rank, p);
    SumStep(g, o.L, done, p);
    SumPrefix(g, o.L, done + [p], full);
    BranchReady(o.code, g, rank, o.L, o.off, full, done, p);
  }

  /** The block has been written. */
  lemma PlacedNow(g: Graph, rank: Rank, o: Output, code: seq<Insn>, done: seq<nat>, stack: set<nat>, full: seq<nat>,
                  p: nat)
    requires EmittedAs(g, rank, o, done, stack + {p}, full) && p < |g| && Prefix(done + [p], full) &&
      Topo(g, rank, done + [p])
    requires |code| == |o.code| && |o.off| == |o.L.jt| == |o.L.jf| == |g|
    requires forall i :: 0 <= i < |code| && i >= o.tail ==> code[i] == o.code[i]
    requires Laid(code, g, o.L, o.off[p := o.tail - BlockSize(g, o.L, p)], p)
    ensures
      var tail := o.tail - BlockSize(g, o.L, p);
      EmittedAs(g, rank, o.(code := code, off := o.off[p := tail], tail := tail), done + [p], stack, full)
  {
    assert Opened(Key);
    SumStep(g, o.L, done, p);
    BuiltStep(o.code, code, g, rank, o.L, o.off, full, done, p);
    MarksLeave(g, o.mark, o.cur, done, stack, p);
  }

  /** Or one more long jump has been reserved. */
  lemma FlaggedNow(g: Graph, rank: Rank, o: Output, done: seq<nat>, stack: set<nat>, full: seq<nat>, p: nat, L: Flags)
    requires EmittedAs(g, rank, o, done, stack, full) && WellFormed(g, rank) && p in Elems(full) && p < |g|
    requires |o.L.jt| == |o.L.jf| == |g| && OneMore(o.L, L, p)
    requires !g[p].Leaf() && g[p].jt >= 0 && g[p].jf >= 0
    requires L.jt[p] == 1 ==> Dist(g, o.L, full, p, g[p].jt) >= 256
    requires L.jf[p] == 1 ==> Dist(g, o.L, full, p, g[p].jf) >= 256
    ensures Justified(g, L, full) && Used(L) == Used(o.L) + 1
  {
    assert Opened(Key);
    JustifyMore(g, rank, o.L, L, full, p);
    OneMoreUsed(o.L, L, p);
  }

  class Linearizer {
    const g: Graph
    ghost const rank: Rank

    var mark: seq<nat>
    var curMark: nat
    var offset: seq<int>
    var longjt: seq<nat>
    var longjf: seq<nat>
    var fstart: array<Insn>
    var ftail: nat

    ghost predicate Valid()
      reads this
    {
      && WellFormed(g, rank)
      && |mark| == |offset| == |longjt| == |longjf| == |g|
    }

    ghost function L(): Flags
      reads this
    {
      Flags(longjt, longjf)
    }

    constructor (graph: Graph, ghost rk: Rank)
      requires WellFormed(graph, rk)
      ensures Valid() && g == graph && rank == rk
      ensures curMark == 0 && mark == seq(|graph|, i => 0)
      ensures longjt == seq(|graph|, i => 0) && longjf == seq(|graph|, i => 0)
    {
      g, rank := graph, rk;
      mark, offset := seq(|graph|, i => 0), seq(|graph|, i => 0);
      longjt, longjf := seq(|graph|, i => 0), seq(|graph|, i => 0);
      curMark, ftail := 0, 0;
      fstart := new Insn[0];
    }

    method UnMarkAll()
      requires Valid() && forall i :: 0 <= i < |mark| ==> mark[i] <= curMark
      modifies this`curMark
      ensures Valid() && Marks(g, mark, curMark, [], {})
    {
      curMark := curMark + 1;
    }

    /** The number of statements of a list that are not deleted. */
    method SLength(ss: seq<Stmt>) returns (n: nat)
      ensures n == |Emit(ss)|
    {
      n := 0;
      for i := 0 to |ss|
        invariant n + |Emit(ss[i..])| == |Emit(ss)|
      {
        assert ss[i..][1..] == ss[i + 1..];
        if !ss[i].code.Nop? {
          n := n + 1;
        }
      }
    }

    /** The size of everything reachable from `p` and not visited yet. */
    method CountStmts(p: int, ghost done: seq<nat>, ghost stack: set<nat>) returns (n: nat, ghost done': seq<nat>)
      requires Valid() && (p == -1 || p in rank) && Topo(g, rank, done)
      requires Marks(g, mark, curMark, done, stack) && Above(g, rank, stack, p)
      modifies this`mark
      ensures Valid() && Marks(g, mark, curMark, done', stack)
      ensures done' == Order(g, rank, p, done, true)
      ensures n == Sum(g, L(), done') - Sum(g, L(), done)
      decreases if p == -1 then 0 else rank[p] + 1
    {
      if p == -1 {
        return 0, done;
      }
      MarksEnter(g, rank, mark, curMark, done, stack, p);
      if mark[p] == curMark {
        return 0, done;
      }
      mark := mark[p := curMark];
      ghost var d1, d2;
      var n1, n2;
      n1, d1 := CountStmts(g[p].jt, done, stack + {p});
      OrderTopo(g, rank, g[p].jt, done, true);
      n2, d2 := CountStmts(g[p].jf, d1, stack + {p});
      var slen := SLength(g[p].stmts);
      n := slen + (n1 + n2) + 1 + longjt[p] + longjf[p];
      done' := d2 + [p];
      MarksLeave(g, mark, curMark, d2, stack, p);
      SumStep(g, L(), d2, p);
    }

    /** Copies the statements of a block to `dst`, skipping the deleted ones. */
    method EmitStmts(ss: seq<Stmt>, dst: nat)
      requires dst + |Emit(ss)| <= fstart.Length
      modifies fstart
      ensures fstart[dst..dst + |Emit(ss)|] == Emit(ss)
      ensures forall i :: 0 <= i < fstart.Length && !(dst <= i < dst + |Emit(ss)|) ==> fstart[i] == old(fstart[i])
    {
      var d := dst;
      for i := 0 to |ss|
        invariant dst <= d == dst + |Emit(ss[..i])| <= fstart.Length && fstart[dst..d] == Emit(ss[..i])
        invariant forall j :: 0 <= j < fstart.Length && !(dst <= j < d) ==> fstart[j] == old(fstart[j])
      {
        assert ss[..i + 1] == ss[..i] + [ss[i]] && ss == ss[..i + 1] + ss[i + 1..];
        EmitAppend(ss[..i], [ss[i]]);
        EmitAppend(ss[..i + 1], ss[i + 1..]);
        if !ss[i].code.Nop? {
          ghost var before := fstart[dst..d];
          fstart[d] := Insn(ss[i].code, 0, 0, ss[i].k);
          d := d + 1;
          assert fstart[dst..d] == before + [Insn(ss[i].code, 0, 0, ss[i].k)];
        }
      }
      assert ss[..|ss|] == ss;
    }

    /** Writes the final instruction of `p` at `pc`. A branch whose target is 256 or
        more away goes through an extra jump if one has been reserved for it;
        otherwise it is marked, and the pass fails. */
    method EmitBranch(p: nat, pc: nat) returns (ok: bool)
      requires Valid() && FlagsOk(g, L()) && p in rank && p < |g|
      requires pc + 1 + longjt[p] + longjf[p] <= fstart.Length
      requires !g[p].Leaf() ==>
        && 0 <= g[p].jt < |g| && 0 <= g[p].jf < |g|
        && pc + longjt[p] + longjf[p] < offset[g[p].jt] < fstart.Length
        && pc + longjt[p] + longjf[p] < offset[g[p].jf] < fstart.Length
        && fstart.Length < WORD_LIMIT
      requires !g[p].Leaf() && longjt[p] == 1 ==> offset[g[p].jt] - pc - 1 >= 256
      requires !g[p].Leaf() && longjf[p] == 1 ==> offset[g[p].jf] - pc - 1 >= 256
      modifies this`longjt, this`longjf, fstart
      ensures Valid()
      ensures forall i :: 0 <= i < fstart.Length && !(pc <= i < pc + 1 + old(longjt[p] + longjf[p])) ==>
        fstart[i] == old(fstart[i])
      ensures ok ==> L() == old(L()) && BranchLaid(fstart[..], g, L(), offset, p, pc)
      ensures !ok ==> !g[p].Leaf() && OneMore(old(L()), L(), p)
      ensures !ok ==>
        && (longjt[p] == 1 ==> offset[g[p].jt] - pc - 1 >= 256)
        && (longjf[p] == 1 ==> offset[g[p].jf] - pc - 1 >= 256)
    {
      assert NodeOk(g, rank, p);
      fstart[pc] := Insn(g[p].s.code, 0, 0, g[p].s.k);
      if g[p].jt >= 0 {
        var extrajmps := 0;
        var off := offset[g[p].jt] - pc - 1;
        if off >= 256 {
          if longjt[p] == 0 {
            longjt := longjt[p := longjt[p] + 1];
            return false;
          }
          fstart[pc] := fstart[pc].(jt := extrajmps);
          extrajmps := extrajmps + 1;
          fstart[pc + extrajmps] := Insn(Ja, 0, 0, off - extrajmps);
        } else {
          fstart[pc] := fstart[pc].(jt := off);
        }
        off := offset[g[p].jf] - pc - 1;
        if off >= 256 {
          if longjf[p] == 0 {
            longjf := longjf[p := longjf[p] + 1];
            return false;
          }
          fstart[pc] := fstart[pc].(jf := extrajmps);
          extrajmps := extrajmps + 1;
          fstart[pc + extrajmps] := Insn(Ja, 0, 0, off - extrajmps);
        } else {
          fstart[pc] := fstart[pc].(jf := off);
        }
      }
      return true;
    }

    /** Writes the code of `p` at `dst`. */
    method EmitBlock(p: nat, dst: nat, slen: nat) returns (ok: bool)
      requires Valid() && FlagsOk(g, L()) && p in rank && p < |g| && slen == |Emit(g[p].stmts)| && offset[p] == dst
      requires dst + BlockSize(g, L(), p) <= fstart.Length < WORD_LIMIT
      requires !g[p].Leaf() ==>
        && 0 <= g[p].jt < |g| && 0 <= g[p].jf < |g|
        && dst + slen + longjt[p] + longjf[p] < offset[g[p].jt] < fstart.Length
        && dst + slen + longjt[p] + longjf[p] < offset[g[p].jf] < fstart.Length
      requires !g[p].Leaf() && longjt[p] == 1 ==> offset[g[p].jt] - (dst + slen) - 1 >= 256
      requires !g[p].Leaf() && longjf[p] == 1 ==> offset[g[p].jf] - (dst + slen) - 1 >= 256
      modifies this`longjt, this`longjf, fstart
      ensures Valid()
      ensures ok ==> L() == old(L()) && Laid(fstart[..], g, L(), offset, p)
      ensures ok ==> forall i :: dst + BlockSize(g, L(), p) <= i < fstart.Length ==> fstart[i] == old(fstart[i])
      ensures !ok ==> !g[p].Leaf() && OneMore(old(L()), L(), p)
      ensures !ok ==>
        && (longjt[p] == 1 ==> offset[g[p].jt] - (dst + slen) - 1 >= 256)
        && (longjf[p] == 1 ==> offset[g[p].jf] - (dst + slen) - 1 >= 256)
    {
      EmitStmts(g[p].stmts, dst);
      ghost var mid := fstart[..];
      ok := EmitBranch(p, dst + slen);
      assert fstart[..][dst..dst + slen] == mid[dst..dst + slen];
    }

    ghost function Now(): Output
      reads this, fstart
    {
      Output(fstart[..], offset, ftail, mark, curMark, L())
    }

    /** `done` has been emitted at the end of the array, and the blocks of `stack` are
        being visited. */
    ghost predicate Emitted(done: seq<nat>, stack: set<nat>, full: seq<nat>)
      reads this, fstart
    {
      EmittedAs(g, rank, Now(), done, stack, full)
    }

    /** Places block `p` just below everything emitted so far. */
    method PlaceBlock(p: nat, ghost done: seq<nat>, ghost stack: set<nat>, ghost full: seq<nat>)
      returns (ok: bool, ghost done': seq<nat>)
      requires Valid() && p in rank && p < |g| && Emitted(done, stack + {p}, full) && Prefix(done + [p], full)
      requires Topo(g, rank, done + [p])
      requires !g[p].Leaf() ==> g[p].jt in Elems(done) && g[p].jf in Elems(done)
      modifies this`offset, this`ftail, this`longjt, this`longjf, fstart
      ensures Valid()
      ensures ok ==> done' == done + [p] && L() == old(L()) && Emitted(done', stack, full)
      ensures !ok ==> Justified(g, L(), full) && Used(L()) == Used(old(L())) + 1
    {
      ghost var was := Now();
      ok := EmitAt(p, done, stack + {p}, full);
      done' := done + [p];
      if ok {
        PlacedNow(g, rank, was, fstart[..], done, stack, full, p);
      } else {
        FlaggedNow(g, rank, was, done, stack + {p}, full, p, L());
      }
    }

    /** Writes the block below what has been emitted. */
    method EmitAt(p: nat, ghost done: seq<nat>, ghost stack: set<nat>, ghost full: seq<nat>) returns (ok: bool)
      requires Valid() && p in rank && p < |g| && Emitted(done, stack, full) && Prefix(done + [p], full)
      requires !g[p].Leaf() ==> g[p].jt in Elems(done) && g[p].jf in Elems(done)
      modifies this`offset, this`ftail, this`longjt, this`longjf, fstart
      ensures Valid() && |old(longjt)| == |old(longjf)| == |g|
      ensures ok ==>
        var tail := old(ftail) - BlockSize(g, old(L()), p);
        && Now() == old(Now()).(code := fstart[..], off := old(offset)[p := tail], tail := tail)
        && Laid(fstart[..], g, L(), offset, p)
        && forall i :: 0 <= i < fstart.Length && i >= old(ftail) ==> fstart[i] == old(fstart[i])
      ensures !ok ==>
        && OneMore(old(L()), L(), p) && p in Elems(full) && !g[p].Leaf() && g[p].jt >= 0 && g[p].jf >= 0
        && (longjt[p] == 1 ==> Dist(g, old(L()), full, p, g[p].jt) >= 256)
        && (longjf[p] == 1 ==> Dist(g, old(L()), full, p, g[p].jf) >= 256)
    {
      var slen := SLength(g[p].stmts);
      RoomAt(g, rank, Now(), done, stack, full, p);
      ftail := ftail - (slen + 1 + longjt[p] + longjf[p]);
      offset := offset[p := ftail];
      ok := EmitBlock(p, ftail, slen);
    }

    /** Emits everything reachable from `p` that is not yet emitted, below `ftail`. */
    method ConvertCode(p: int, ghost done: seq<nat>, ghost stack: set<nat>, ghost full: seq<nat>)
      returns (ok: bool, ghost done': seq<nat>)
      requires Valid() && (p == -1 || p in rank) && Emitted(done, stack, full) && Above(g, rank, stack, p)
      requires Prefix(Order(g, rank, p, done, false), full)
      modifies this`mark, this`offset, this`ftail, this`longjt, this`longjf, fstart
      ensures Valid() && forall i :: 0 <= i < |g| ==> mark[i] <= curMark
      ensures ok ==> done' == Order(g, rank, p, done, false) && L() == old(L()) && Emitted(done', stack, full)
      ensures !ok ==> Justified(g, L(), full) && Used(L()) == Used(old(L())) + 1
      decreases if p == -1 then 0 else rank[p] + 1
    {
      EmittedMarks(g, rank, Now(), done, stack, full);
      if p == -1 {
        return true, done;
      }
      assert NodeOk(g, rank, p);
      var first := Enter(p, done, stack, full);
      if !first {
        return true, done;
      }
      ghost var d1, d2 := ConvertPrefix(g, rank, p, done, full);
      ok, d1 := ConvertCode(g[p].jf, done, stack + {p}, full);
      if !ok {
        return false, done;
      }
      ok, d2 := ConvertCode(g[p].jt, d1, stack + {p}, full);
      if !ok {
        return false, done;
      }
      ok, done' := PlaceBlock(p, d2, stack, full);
    }

    /** Marks `p` unless it has been marked before. */
    method Enter(p: nat, ghost done: seq<nat>, ghost stack: set<nat>, ghost full: seq<nat>) returns (first: bool)
      requires Valid() && p in rank && p < |g| && Emitted(done, stack, full) && Above(g, rank, stack, p)
      modifies this`mark
      ensures Valid() && (first <==> p !in Elems(done))
      ensures if first then Emitted(done, stack + {p}, full) else mark == old(mark)
      ensures first ==> Above(g, rank, stack + {p}, g[p].jt) && Above(g, rank, stack + {p}, g[p].jf)
    {
      assert Opened(Key);
      MarksEnter(g, rank, mark, curMark, done, stack, p);
      first := mark[p] != curMark;
      if first {
        mark := mark[p := curMark];
      }
    }

    /** One pass: count, allocate, convert. */
    method Pass(root: nat, ghost full: seq<nat>) returns (ok: bool)
      requires Valid() && root in rank && (forall i :: 0 <= i < |g| ==> mark[i] <= curMark)
      requires full == Order(g, rank, root, [], false) && Justified(g, L(), full)
      requires Sum(g, AllLong(g), full) < WORD_LIMIT
      modifies this
      ensures Valid() && (forall i :: 0 <= i < |g| ==> mark[i] <= curMark) && Justified(g, L(), full)
      ensures fresh(fstart)
      ensures ok ==> Used(L()) == Used(old(L())) && Built(fstart[..], g, rank, L(), offset, full, full)
      ensures !ok ==> Used(L()) == Used(old(L())) + 1
    {
      Allocate(root, full);
      ghost var done;
      ok, done := ConvertCode(root, [], {}, full);
      if ok {
        AllBuilt(g, rank, Now(), full);
      }
    }

    /** Counts, and provides an array of that size. */
    method Allocate(root: nat, ghost full: seq<nat>)
      requires Valid() && root in rank && (forall i :: 0 <= i < |g| ==> mark[i] <= curMark)
      requires full == Order(g, rank, root, [], false) && Justified(g, L(), full)
      requires Sum(g, AllLong(g), full) < WORD_LIMIT
      modifies this
      ensures Valid() && L() == old(L()) && fresh(fstart) && Emitted([], {}, full)
    {
      OrderTopo(g, rank, root, [], false);
      var n := CountAll(root);
      SumGrows(g, L(), AllLong(g), full);
      fstart := new Insn[n](i => Insn(LdImm, 0, 0, 0));
      ftail := n;
      UnMarkAll();
      NothingYet(g, rank, Now(), full);
    }

    method CountAll(root: nat) returns (n: nat)
      requires Valid() && root in rank && (forall i :: 0 <= i < |g| ==> mark[i] <= curMark)
      modifies this`mark, this`curMark
      ensures Valid() && (forall i :: 0 <= i < |g| ==> mark[i] <= curMark)
      ensures n == Sum(g, L(), Order(g, rank, root, [], false))
    {
      UnMarkAll();
      ghost var counted;
      n, counted := CountStmts(root, [], {});
      CountMatches(g, rank, L(), root);
      MarksBound(g, mark, curMark, counted, {});
    }

    /** The whole conversion: passes are repeated until every offset fits. */
    method IcodeToFcode(root: nat) returns (fp: array<Insn>, ghost passes: nat)
      requires Valid() && root in rank && (forall i :: 0 <= i < |g| ==> mark[i] <= curMark)
      requires forall i :: 0 <= i < |g| ==> longjt[i] == 0 && longjf[i] == 0
      requires Sum(g, AllLong(g), Order(g, rank, root, [], false)) < WORD_LIMIT
      modifies this
      ensures fresh(fp) && Valid()
      ensures forall st, p :: RunFlat(fp[..], 0, st, p) == Run(g, rank, root, st, p)
      ensures (Validates(fp[..]) <==> NoZeroDivision(fp[..])) &&
        (NoZeroDivision(fp[..]) <==> ZeroFree(g, Reach(g, rank, root)))
      ensures
        var full := Order(g, rank, root, [], false);
        Justified(g, L(), full) && Built(fp[..], g, rank, L(), offset, full, full)
      ensures passes <= 2 * |g| + 1
    {
      ghost var full := Order(g, rank, root, [], false);
      passes := ConvertFully(root, full);
      fp := fstart;
      OrderProps(g, rank, root, [], false);
      BuiltRuns(fp[..], g, rank, L(), offset, full, root);
      BuiltValidates(fp[..], g, rank, L(), offset, full);
      OrderElems(g, rank, root, [], false);
      assert Elems(full) == Reach(g, rank, root);
    }

    /** Repeats the pass, which each time it fails has reserved one more long jump. */
    method ConvertFully(root: nat, ghost full: seq<nat>) returns (ghost passes: nat)
      requires Valid() && root in rank && (forall i :: 0 <= i < |g| ==> mark[i] <= curMark)
      requires forall i :: 0 <= i < |g| ==> longjt[i] == 0 && longjf[i] == 0
      requires full == Order(g, rank, root, [], false) && Sum(g, AllLong(g), full) < WORD_LIMIT
      modifies this
      ensures Valid() && fresh(fstart)
      ensures Justified(g, L(), full) && Built(fstart[..], g, rank, L(), offset, full, full)
      ensures passes <= 2 * |g| + 1
    {
      passes := 0;
      NoFlagsUsed(L());
      while true
        invariant Valid() && (forall i :: 0 <= i < |g| ==> mark[i] <= curMark)
        invariant Justified(g, L(), full) && passes == Used(L())
        decreases 2 * |g| - Used(L())
      {
        UsedBound(L());
        passes := passes + 1;
        var ok := Pass(root, full);
        UsedBound(L());
        if ok {
          break;
        }
      }
    }
  }
}
