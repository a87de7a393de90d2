/** Boolean code generation over linked blocks.

    A pending expression is a block whose unresolved exits are threaded into two
    lists, one of exits taken when the expression holds and one of exits taken when
    it does not. Each list runs through the very fields that will later hold the
    jump targets; a block's `sense` says which of its two fields is the link. */
module Backpatch {
  import opened Bpf
  import opened Flow
  import opened Atoms
  import opened Fragment
  import opened Lists
  import opened Constancy

  /** The fields of `struct block` that the code generator uses; pointers are
      addresses in the pool, -1 is null. */
  datatype Rec = Rec(stmts: seq<Stmt>, s: Stmt, jt: int, jf: int, sense: bool, head: nat)

  type Mem = seq<Rec>

  /** The blocks of a pending expression, as a fragment, and the two lists of
      addresses of blocks with open exits. */
  datatype Pend = Pend(f: Frag, tl: seq<nat>, fl: seq<nat>)

  function LinkOf(r: Rec, sense: bool): int {
    if !sense then r.jt else r.jf
  }

  /** The expression's own block `b` is in both lists: it is read under sense
      `first`, every other block under its own. */
  function SenseAt(m: Mem, b: nat, first: bool, a: nat): bool
    requires a < |m|
  {
    if a == b then first else m[a].sense
  }

  predicate ChainAt(m: Mem, b: nat, list: seq<nat>, first: bool, k: nat)
    requires k < |list|
  {
    && list[k] < |m|
    && LinkOf(m[list[k]], SenseAt(m, b, first, list[k])) == if k + 1 < |list| then list[k + 1] else -1
  }

  /** `list` names the blocks in the order in which the links visit them. */
  ghost predicate Chain(m: Mem, b: nat, list: seq<nat>, first: bool) {
    && |list| > 0 && list[0] == b
    && forall k :: 0 <= k < |list| ==> ChainAt(m, b, list, first, k)
  }

  predicate OpenAt(n: FNode, here: bool, sense: bool, on: Link) {
    && (n.t == on <==> here && !sense)
    && (n.f == on <==> here && sense)
  }

  predicate ResolvedAt(r: Rec, n: FNode) {
    && r.stmts == n.stmts && r.s == n.s
    && (n.t.Go? ==> r.jt == n.t.j)
    && (n.f.Go? ==> r.jf == n.f.j)
  }

  /** One block of the fragment as it lies in memory: resolved links are in place, and
      its open exits are its link fields in the lists it belongs to. */
  ghost predicate HeldAt(m: Mem, b: nat, P: Pend, sense: bool, a: nat)
    requires a in P.f.nodes
  {
    && a < |m|
    && ResolvedAt(m[a], P.f.nodes[a])
    && OpenAt(P.f.nodes[a], a in Elems(P.tl), SenseAt(m, b, sense, a), Yes)
    && OpenAt(P.f.nodes[a], a in Elems(P.fl), SenseAt(m, b, !sense, a), No)
  }

  /** `b` stands for the pending expression `P`. */
  ghost predicate Pending(m: Mem, b: nat, P: Pend) {
    && Wf(P.f) && b in P.f.nodes && b < |m| && m[b].head == P.f.head
    && (forall a {:trigger HeldAt(m, b, P, m[b].sense, a)} :: a in P.f.nodes ==> HeldAt(m, b, P, m[b].sense, a))
    && Chain(m, b, P.tl, m[b].sense) && NoRepeat(P.tl) && Elems(P.tl) <= P.f.nodes.Keys
    && Chain(m, b, P.fl, !m[b].sense) && NoRepeat(P.fl) && Elems(P.fl) <= P.f.nodes.Keys
  }

  /** Blocks outside `S` are as they were. */
  ghost predicate Same(m: Mem, m': Mem, S: set<nat>) {
    && |m| <= |m'|
    && forall a :: 0 <= a < |m| && a !in S ==> m'[a] == m[a]
  }

  function PatchRec(r: Rec, sense: bool, target: nat): Rec {
    if !sense then r.(jt := target) else r.(jf := target)
  }

  /** Memory after the links of the blocks in `at` are set to `target`. */
  ghost predicate Patched(m: Mem, m': Mem, at: set<nat>, target: nat) {
    && |m'| == |m|
    && forall a :: 0 <= a < |m| ==> m'[a] == if a in at then PatchRec(m[a], m[a].sense, target) else m[a]
  }

  /** A pending expression does not notice changes to other blocks. */
  lemma PendingSame(m: Mem, m': Mem, b: nat, P: Pend, S: set<nat>)
    requires Pending(m, b, P) && Same(m, m', S) && P.f.nodes.Keys !! S
    ensures Pending(m', b, P)
  {
    forall a | a in P.f.nodes ensures a < |m| && m'[a] == m[a] {
      assert HeldAt(m, b, P, m[b].sense, a);
    }
    ChainSame(m, m', b, P.tl, m[b].sense, P.f.nodes.Keys);
    ChainSame(m, m', b, P.fl, !m[b].sense, P.f.nodes.Keys);
    forall a | a in P.f.nodes ensures HeldAt(m', b, P, m'[b].sense, a) {
      assert HeldAt(m, b, P, m[b].sense, a);
    }
  }

  lemma ChainSame(m: Mem, m': Mem, b: nat, list: seq<nat>, first: bool, S: set<nat>)
    requires Chain(m, b, list, first) && Elems(list) <= S && |m| <= |m'|
    requires forall a :: a in S && a < |m| ==> m'[a] == m[a]
    ensures Chain(m', b, list, first)
  {
    forall k | 0 <= k < |list| ensures ChainAt(m', b, list, first, k) {
      assert ChainAt(m, b, list, first, k);
      ElemsIn(list, list[k]);
    }
  }

  // ----- joining two pending expressions

  function OnList(P: Pend, on: Link): seq<nat> {
    if on.Yes? then P.tl else P.fl
  }

  /** The sense under which the expression's own block is read in list `on`. */
  function SenseFor(sense: bool, on: Link): bool {
    if on.Yes? then sense else !sense
  }

  function Last(list: seq<nat>): nat {
    if list == [] then 0 else list[|list| - 1]
  }

  /** Joining on `on`: those exits of `P0` go to the entry of `P1`, the others are
      appended to the corresponding list of `P1`. */
  ghost function JoinPend(P0: Pend, P1: Pend, on: Link): Pend
    requires Wf(P0.f) && Wf(P1.f)
  {
    var merged := OnList(P1, Flip(on)) + OnList(P0, Flip(on));
    Pend(Join(P0.f, P1.f, on),
         if on.Yes? then P1.tl else merged,
         if on.Yes? then merged else P1.fl)
  }

  /** The two operands and the exits they are joined on. */
  datatype Pair = Pair(b0: nat, P0: Pend, b1: nat, P1: Pend, on: Link)

  ghost predicate Operands(m: Mem, j: Pair) {
    && Pending(m, j.b0, j.P0) && Pending(m, j.b1, j.P1)
    && j.P0.f.nodes.Keys !! j.P1.f.nodes.Keys && !j.on.Go?
  }

  /** What a join makes of the block at `a`. */
  ghost function JoinRec(m: Mem, j: Pair, a: nat): Rec
    requires a < |m| && j.b0 < |m| && j.b1 < |m|
  {
    if a in j.P0.f.nodes then
      var r := if a in Elems(OnList(j.P0, j.on))
               then PatchRec(m[a], SenseAt(m, j.b0, SenseFor(m[j.b0].sense, j.on), a), j.P1.f.head) else m[a];
      if a == j.b0 then r.(sense := SenseFor(m[j.b0].sense, Flip(j.on))) else r
    else
      var r := if a == Last(OnList(j.P1, Flip(j.on)))
               then PatchRec(m[a], SenseAt(m, j.b1, SenseFor(m[j.b1].sense, Flip(j.on)), a), j.b0) else m[a];
      if a == j.b1 then r.(head := j.P0.f.head) else r
  }

  ghost predicate Joined(m: Mem, m': Mem, j: Pair) {
    && |m'| == |m| && j.b0 < |m| && j.b1 < |m|
    && forall a {:trigger JoinRec(m, j, a)} :: 0 <= a < |m| ==> m'[a] == JoinRec(m, j, a)
  }

  /** The facts about one list of a pending expression, for either answer. */
  lemma HeldOn(m: Mem, b: nat, P: Pend, l: Link, a: nat)
    requires Pending(m, b, P) && a in P.f.nodes && !l.Go?
    ensures a < |m| && ResolvedAt(m[a], P.f.nodes[a])
    ensures OpenAt(P.f.nodes[a], a in Elems(OnList(P, l)), SenseAt(m, b, SenseFor(m[b].sense, l), a), l)
  {
    assert HeldAt(m, b, P, m[b].sense, a);
  }

  lemma InMemory(m: Mem, b: nat, P: Pend)
    requires Pending(m, b, P)
    ensures forall a :: a in P.f.nodes ==> a < |m|
  {
    forall a | a in P.f.nodes ensures a < |m| {
      assert HeldAt(m, b, P, m[b].sense, a);
    }
  }

  lemma ChainOn(m: Mem, b: nat, P: Pend, l: Link)
    requires Pending(m, b, P) && !l.Go?
    ensures Chain(m, b, OnList(P, l), SenseFor(m[b].sense, l))
    ensures NoRepeat(OnList(P, l)) && Elems(OnList(P, l)) <= P.f.nodes.Keys
  {
  }

  /** A block in both lists is the expression's own. */
  lemma InBothLists(m: Mem, b: nat, P: Pend, l: Link, a: nat)
    requires Pending(m, b, P) && !l.Go?
    requires a in Elems(OnList(P, l)) && a in Elems(OnList(P, Flip(l)))
    ensures a == b
  {
    ChainOn(m, b, P, l);
    HeldOn(m, b, P, l, a);
    HeldOn(m, b, P, Flip(l), a);
  }

  lemma JoinIn(j: Pair, l: Link, a: nat)
    requires Wf(j.P0.f) && Wf(j.P1.f) && !l.Go? && !j.on.Go?
    ensures a in Elems(OnList(JoinPend(j.P0, j.P1, j.on), l)) <==>
            a in Elems(OnList(j.P1, l)) || (l != j.on && a in Elems(OnList(j.P0, l)))
  {
    if l != j.on {
      ElemsAppend(OnList(j.P1, l), OnList(j.P0, l));
    }
  }

  lemma JoinHeldLeft(m: Mem, m': Mem, j: Pair, l: Link, a: nat)
    requires Operands(m, j) && Joined(m, m', j) && !l.Go? && a in j.P0.f.nodes
    ensures
      var P := JoinPend(j.P0, j.P1, j.on);
      && a < |m'| && ResolvedAt(m'[a], P.f.nodes[a])
      && OpenAt(P.f.nodes[a], a in Elems(OnList(P, l)), SenseAt(m', j.b1, SenseFor(m'[j.b1].sense, l), a), l)
  {
    HeldOn(m, j.b0, j.P0, j.on, a);
    HeldOn(m, j.b0, j.P0, Flip(j.on), a);
    ChainOn(m, j.b1, j.P1, l);
    assert m'[a] == JoinRec(m, j, a) && m'[j.b1] == JoinRec(m, j, j.b1);
    JoinIn(j, l, a);
  }

  lemma JoinHeldRight(m: Mem, m': Mem, j: Pair, l: Link, a: nat)
    requires Operands(m, j) && Joined(m, m', j) && !l.Go? && a in j.P1.f.nodes
    ensures
      var P := JoinPend(j.P0, j.P1, j.on);
      && a < |m'| && ResolvedAt(m'[a], P.f.nodes[a])
      && OpenAt(P.f.nodes[a], a in Elems(OnList(P, l)), SenseAt(m', j.b1, SenseFor(m'[j.b1].sense, l), a), l)
  {
    HeldOn(m, j.b1, j.P1, l, a);
    HeldOn(m, j.b1, j.P1, Flip(j.on), a);
    ChainOn(m, j.b0, j.P0, l);
    ChainOn(m, j.b1, j.P1, Flip(j.on));
    var off := OnList(j.P1, Flip(j.on));
    ElemsIn(off, Last(off));
    assert m'[a] == JoinRec(m, j, a) && m'[j.b1] == JoinRec(m, j, j.b1);
    JoinHeldRightAt(m, m', j, l, a);
  }

  lemma JoinHeldRightAt(m: Mem, m': Mem, j: Pair, l: Link, a: nat)
    requires Wf(j.P0.f) && Wf(j.P1.f) && !l.Go? && !j.on.Go? && a in j.P1.f.nodes && a !in j.P0.f.nodes
    requires j.b0 < |m| && j.b1 < |m| && a < |m| == |m'| && j.b1 !in j.P0.f.nodes
    requires a !in Elems(OnList(j.P0, l)) && Last(OnList(j.P1, Flip(j.on))) in Elems(OnList(j.P1, Flip(j.on)))
    requires m'[a] == JoinRec(m, j, a) && m'[j.b1].sense == m[j.b1].sense
    requires ResolvedAt(m[a], j.P1.f.nodes[a])
    requires OpenAt(j.P1.f.nodes[a], a in Elems(OnList(j.P1, l)), SenseAt(m, j.b1, SenseFor(m[j.b1].sense, l), a), l)
    requires OpenAt(j.P1.f.nodes[a], a in Elems(OnList(j.P1, Flip(j.on))),
                    SenseAt(m, j.b1, SenseFor(m[j.b1].sense, Flip(j.on)), a), Flip(j.on))
    ensures
      var P := JoinPend(j.P0, j.P1, j.on);
      && ResolvedAt(m'[a], P.f.nodes[a])
      && OpenAt(P.f.nodes[a], a in Elems(OnList(P, l)), SenseAt(m', j.b1, SenseFor(m'[j.b1].sense, l), a), l)
  {
    JoinIn(j, l, a);
  }

  /** The list that only the right operand contributes to keeps its links. */
  lemma JoinStays(m: Mem, m': Mem, j: Pair)
    requires Operands(m, j) && Joined(m, m', j)
    ensures Chain(m', j.b1, OnList(j.P1, j.on), SenseFor(m'[j.b1].sense, j.on))
  {
    var list, off := OnList(j.P1, j.on), OnList(j.P1, Flip(j.on));
    ChainOn(m, j.b1, j.P1, j.on);
    ChainOn(m, j.b1, j.P1, Flip(j.on));
    forall k | 0 <= k < |list| ensures ChainAt(m', j.b1, list, SenseFor(m'[j.b1].sense, j.on), k) {
      assert ChainAt(m, j.b1, list, SenseFor(m[j.b1].sense, j.on), k);
      ElemsIn(list, list[k]);
      ElemsIn(off, Last(off));
      assert m'[list[k]] == JoinRec(m, j, list[k]) && m'[j.b1] == JoinRec(m, j, j.b1);
      if list[k] == Last(off) {
        InBothLists(m, j.b1, j.P1, j.on, list[k]);
      }
    }
  }

  lemma NotLast(list: seq<nat>, k: nat)
    requires NoRepeat(list) && k < |list|
    ensures k + 1 < |list| ==> list[k] != Last(list)
  {
    if k + 1 < |list| {
      var l := list[..|list| - 1];
      NoRepeatAt(list, |list| - 1);
      assert l[k] == list[k];
      ElemsIn(l, list[k]);
    }
  }

  /** In the merged list the links of the right operand's come first, and its last
      block links to the left operand. */
  lemma MergedRight(m: Mem, m': Mem, j: Pair, k: nat)
    requires Operands(m, j) && Joined(m, m', j) && k < |OnList(j.P1, Flip(j.on))|
    ensures
      var l1, first := OnList(j.P1, Flip(j.on)), SenseFor(m'[j.b1].sense, Flip(j.on));
      && l1[k] < |m'|
      && LinkOf(m'[l1[k]], SenseAt(m', j.b1, first, l1[k])) == if k + 1 < |l1| then l1[k + 1] else j.b0
  {
    var l1 := OnList(j.P1, Flip(j.on));
    ChainOn(m, j.b1, j.P1, Flip(j.on));
    assert ChainAt(m, j.b1, l1, SenseFor(m[j.b1].sense, Flip(j.on)), k);
    ElemsIn(l1, l1[k]);
    assert m'[l1[k]] == JoinRec(m, j, l1[k]) && m'[j.b1] == JoinRec(m, j, j.b1);
    NotLast(l1, k);
  }

  lemma MergedLeft(m: Mem, m': Mem, j: Pair, k: nat)
    requires Operands(m, j) && Joined(m, m', j) && k < |OnList(j.P0, Flip(j.on))|
    ensures
      var l0 := OnList(j.P0, Flip(j.on));
      && l0[k] < |m'| && l0[k] != j.b1
      && LinkOf(m'[l0[k]], m'[l0[k]].sense) == if k + 1 < |l0| then l0[k + 1] else -1
  {
    var l0 := OnList(j.P0, Flip(j.on));
    ChainOn(m, j.b0, j.P0, Flip(j.on));
    assert ChainAt(m, j.b0, l0, SenseFor(m[j.b0].sense, Flip(j.on)), k);
    ElemsIn(l0, l0[k]);
    if l0[k] in Elems(OnList(j.P0, j.on)) {
      InBothLists(m, j.b0, j.P0, j.on, l0[k]);
    }
    assert m'[l0[k]] == JoinRec(m, j, l0[k]);
  }

  /** The other list is that of the right operand continued by that of the left. */
  lemma JoinMerges(m: Mem, m': Mem, j: Pair)
    requires Operands(m, j) && Joined(m, m', j)
    ensures Chain(m', j.b1, OnList(j.P1, Flip(j.on)) + OnList(j.P0, Flip(j.on)), SenseFor(m'[j.b1].sense, Flip(j.on)))
  {
    var l1, l0 := OnList(j.P1, Flip(j.on)), OnList(j.P0, Flip(j.on));
    ChainOn(m, j.b1, j.P1, Flip(j.on));
    ChainOn(m, j.b0, j.P0, Flip(j.on));
    forall k | 0 <= k < |l1 + l0|
      ensures ChainAt(m', j.b1, l1 + l0, SenseFor(m'[j.b1].sense, Flip(j.on)), k)
    {
      if k < |l1| {
        MergedRight(m, m', j, k);
      } else {
        MergedLeft(m, m', j, k - |l1|);
      }
    }
  }

  lemma JoinSame(m: Mem, m': Mem, j: Pair)
    requires Operands(m, j) && Joined(m, m', j)
    ensures Same(m, m', j.P0.f.nodes.Keys + j.P1.f.nodes.Keys)
  {
    var off := OnList(j.P1, Flip(j.on));
    ChainOn(m, j.b1, j.P1, Flip(j.on));
    ElemsIn(off, Last(off));
    forall a | 0 <= a < |m| && a !in j.P0.f.nodes.Keys + j.P1.f.nodes.Keys ensures m'[a] == m[a] {
      assert m'[a] == JoinRec(m, j, a);
    }
  }

  lemma JoinHeld(m: Mem, m': Mem, j: Pair, a: nat)
    requires Operands(m, j) && Joined(m, m', j) && a in j.P0.f.nodes.Keys + j.P1.f.nodes.Keys
    ensures HeldAt(m', j.b1, JoinPend(j.P0, j.P1, j.on), m'[j.b1].sense, a)
  {
    if a in j.P0.f.nodes {
      JoinHeldLeft(m, m', j, Yes, a);
      JoinHeldLeft(m, m', j, No, a);
    } else {
      JoinHeldRight(m, m', j, Yes, a);
      JoinHeldRight(m, m', j, No, a);
    }
  }

  lemma JoinLists(m: Mem, m': Mem, j: Pair, l: Link)
    requires Operands(m, j) && Joined(m, m', j) && !l.Go?
    ensures
      var P := JoinPend(j.P0, j.P1, j.on);
      && Chain(m', j.b1, OnList(P, l), SenseFor(m'[j.b1].sense, l))
      && NoRepeat(OnList(P, l)) && Elems(OnList(P, l)) <= P.f.nodes.Keys
  {
    ChainOn(m, j.b1, j.P1, l);
    ChainOn(m, j.b0, j.P0, l);
    if l == j.on {
      JoinStays(m, m', j);
    } else {
      JoinMerges(m, m', j);
      MergedNoRepeat(OnList(j.P1, l), OnList(j.P0, l));
      ElemsAppend(OnList(j.P1, l), OnList(j.P0, l));
    }
  }

  /** Once memory is as a join leaves it, `b1` stands for the joined expression. */
  lemma JoinPending(m: Mem, m': Mem, j: Pair)
    requires Operands(m, j) && Joined(m, m', j)
    ensures Pending(m', j.b1, JoinPend(j.P0, j.P1, j.on))
  {
    var P := JoinPend(j.P0, j.P1, j.on);
    JoinWf(j.P0.f, j.P1.f, j.on);
    JoinLists(m, m', j, Yes);
    JoinLists(m, m', j, No);
    assert m'[j.b1] == JoinRec(m, j, j.b1);
    forall a | a in P.f.nodes ensures HeldAt(m', j.b1, P, m'[j.b1].sense, a) {
      JoinHeld(m, m', j, a);
    }
  }

  /** The block at `a` after `yes` has been patched into the yes list and, unless it
      is negative, `no` into the no list. */
  ghost predicate FinishedAt(m: Mem, m': Mem, p: nat, P: Pend, yes: nat, no: int, a: nat)
    requires a < |m| <= |m'| && p < |m|
  {
    var sense := m[p].sense;
    && m'[a].stmts == m[a].stmts && m'[a].s == m[a].s && m'[a].head == m[a].head
    && (a != p ==> m'[a].sense == m[a].sense)
    && m'[a].jt == (if a in Elems(P.tl) && !SenseAt(m, p, sense, a) then yes
                    else if no >= 0 && a in Elems(P.fl) && !SenseAt(m, p, !sense, a) then no else m[a].jt)
    && m'[a].jf == (if a in Elems(P.tl) && SenseAt(m, p, sense, a) then yes
                    else if no >= 0 && a in Elems(P.fl) && SenseAt(m, p, !sense, a) then no else m[a].jf)
  }

  lemma FinishChain(m: Mem, m': Mem, p: nat, P: Pend, yes: nat)
    requires Pending(m, p, P) && |m| <= |m'|
    requires forall a :: 0 <= a < |m| ==> FinishedAt(m, m', p, P, yes, -1, a)
    ensures Chain(m', p, P.fl, !m[p].sense)
  {
    var list, first := P.fl, !m[p].sense;
    forall k | 0 <= k < |list| ensures ChainAt(m', p, list, first, k) {
      assert ChainAt(m, p, list, first, k);
      ElemsIn(list, list[k]);
      assert FinishedAt(m, m', p, P, yes, -1, list[k]);
      if list[k] in Elems(P.tl) {
        InBothLists(m, p, P, Yes, list[k]);
      }
    }
  }

  lemma FinishNo(m: Mem, m1: Mem, m2: Mem, p: nat, P: Pend, yes: nat, no: nat, a: nat)
    requires Pending(m, p, P) && a < |m| <= |m1| <= |m2|
    requires FinishedAt(m, m1, p, P, yes, -1, a) && m1[p].sense == !m[p].sense
    requires m2[a] == if a in Elems(P.fl) then PatchRec(m1[a], m1[a].sense, no) else m1[a]
    ensures FinishedAt(m, m2, p, P, yes, no, a)
  {
    if a in Elems(P.tl) && a in Elems(P.fl) {
      InBothLists(m, p, P, Yes, a);
    }
  }

  lemma FinishCloses(m: Mem, m': Mem, p: nat, P: Pend, yes: nat, no: nat, snaplen: Word)
    requires Pending(m, p, P) && yes == |m| && no == |m| + 1 && |m'| == |m| + 2
    requires forall a :: 0 <= a < |m| ==> FinishedAt(m, m', p, P, yes, no, a)
    requires m'[yes].stmts == [] && m'[yes].s == Stmt(RetK, snaplen) && m'[yes].jt == m'[yes].jf == -1
    requires m'[no].stmts == [] && m'[no].s == Stmt(RetK, 0) && m'[no].jt == m'[no].jf == -1
    ensures Closes(GraphOf(m'), P.f, yes, no, snaplen) && m'[p].head == P.f.head
  {
    InMemory(m, p, P);
    assert FinishedAt(m, m', p, P, yes, no, p);
    forall a | a in P.f.nodes
      ensures a < |m|
      ensures m'[a].stmts == P.f.nodes[a].stmts && m'[a].s == P.f.nodes[a].s
      ensures m'[a].jt == Close(P.f.nodes[a].t, yes, no) && m'[a].jf == Close(P.f.nodes[a].f, yes, no)
    {
      assert HeldAt(m, p, P, m[p].sense, a);
      assert FinishedAt(m, m', p, P, yes, no, a);
    }
  }

  // ----- negation and single tests

  ghost function NotPend(P: Pend): Pend {
    Pend(Negate(P.f), P.fl, P.tl)
  }

  lemma NotPending(m: Mem, m': Mem, b: nat, P: Pend)
    requires Pending(m, b, P) && m' == m[b := m[b].(sense := !m[b].sense)]
    ensures Pending(m', b, NotPend(P))
  {
    NegateWf(P.f);
    ChainReread(m, m', b, P.tl, m[b].sense);
    ChainReread(m, m', b, P.fl, !m[b].sense);
    forall a | a in P.f.nodes ensures HeldAt(m', b, NotPend(P), m'[b].sense, a) {
      assert HeldAt(m, b, P, m[b].sense, a);
    }
  }

  ghost function AtomPend(b: nat, stmts: seq<Stmt>, s: Stmt): Pend {
    Pend(Atom(b, stmts, s), [b], [b])
  }

  lemma AtomPending(m: Mem, b: nat, stmts: seq<Stmt>, s: Stmt)
    requires b < |m| && m[b] == Rec(stmts, s, -1, -1, false, b)
    requires TestBlock(stmts, s)
    ensures Pending(m, b, AtomPend(b, stmts, s))
  {
    var P := AtomPend(b, stmts, s);
    AtomEval(b, stmts, s, seq(18, i => 0), Packet([], 0));
    ElemsIn([b], b);
    assert HeldAt(m, b, P, false, b);
    assert ChainAt(m, b, P.tl, false, 0) && ChainAt(m, b, P.fl, true, 0);
  }

  /** The block graph as it lies in memory. */
  function GraphOf(m: Mem): (g: Graph)
    ensures |g| == |m|
    ensures forall a :: 0 <= a < |m| ==> g[a] == Node(m[a].stmts, m[a].s, m[a].jt, m[a].jf)
  {
    seq(|m|, a requires 0 <= a < |m| => Node(m[a].stmts, m[a].s, m[a].jt, m[a].jf))
  }

  /** The head of a list is read under the sense it is given, so flipping its own
      sense field leaves the list as it was. */
  lemma ChainReread(m: Mem, m': Mem, b: nat, list: seq<nat>, first: bool)
    requires Chain(m, b, list, first) && |m'| >= |m|
    requires forall a :: a in Elems(list) && a < |m| ==>
      m'[a].jt == m[a].jt && m'[a].jf == m[a].jf && (a != b ==> m'[a].sense == m[a].sense)
    ensures Chain(m', b, list, first)
  {
    forall k | 0 <= k < |list| ensures ChainAt(m', b, list, first, k) {
      assert ChainAt(m, b, list, first, k);
      ElemsIn(list, list[k]);
    }
  }

  /** What a disjunction makes of the block at `a`. */
  lemma OrRec(m: Mem, m1: Mem, m2: Mem, b0: nat, b1: nat, P0: Pend, P1: Pend, a: nat)
    requires |m| == |m1| == |m2| && b0 < |m| && b1 < |m| && a < |m| && b0 in P0.f.nodes && b1 in P1.f.nodes
    requires P0.f.nodes.Keys !! P1.f.nodes.Keys && P1.tl != []
    requires Elems(P0.fl) <= P0.f.nodes.Keys && Last(P1.tl) in P1.f.nodes
    requires m[b0].head == P0.f.head && m[b1].head == P1.f.head
    requires m1[a] == if a in Elems(P0.fl) then PatchRec(m[a], SenseAt(m, b0, !m[b0].sense, a), m[b1].head) else m[a]
    requires
      var r := if a == Last(P1.tl) then PatchRec(m1[a], m1[a].sense, b0) else m1[a];
      m2[a] == if a == b1 then r.(head := m[b0].head) else r
    ensures m2[a] == JoinRec(m, Pair(b0, P0, b1, P1, No), a)
  {
  }

  // ----- how much has been generated

  /** The statements of the first `k` blocks, with three more each: a branch and two long
      jumps. */
  ghost function RoomOf(m: Mem, k: nat): nat
    requires k <= |m|
  {
    if k == 0 then 0 else RoomOf(m, k - 1) + |m[k - 1].stmts| + 3
  }

  ghost predicate SteadyAt(m: Mem, a: nat)
    requires a < |m|
  {
    Steady(m[a].stmts)
  }

  ghost predicate AllSteady(m: Mem) {
    forall a {:trigger SteadyAt(m, a)} :: 0 <= a < |m| ==> SteadyAt(m, a)
  }

  /** Between `m` and `m'` no more than `room` has been generated, and only steady lists if
      `steady`. */
  ghost predicate Grew(m: Mem, m': Mem, room: nat, steady: bool) {
    && |m| <= |m'| && RoomOf(m', |m'|) <= RoomOf(m, |m|) + room
    && (steady && AllSteady(m) ==> AllSteady(m'))
  }

  lemma {:induction false} RoomSame(m: Mem, m': Mem, k: nat)
    requires k <= |m| && k <= |m'| && forall a {:trigger m'[a]} :: 0 <= a < k ==> m'[a].stmts == m[a].stmts
    ensures RoomOf(m', k) == RoomOf(m, k)
  {
    if k > 0 {
      RoomSame(m, m', k - 1);
      assert m'[k - 1].stmts == m[k - 1].stmts;
    }
  }

  lemma GrewSame(m: Mem, m': Mem)
    requires |m'| == |m| && forall a {:trigger m'[a]} :: 0 <= a < |m| ==> m'[a].stmts == m[a].stmts
    ensures Grew(m, m', 0, true)
  {
    RoomSame(m, m', |m|);
    if AllSteady(m) {
      forall a | 0 <= a < |m'| ensures SteadyAt(m', a) {
        assert SteadyAt(m, a) && m'[a].stmts == m[a].stmts;
      }
    }
  }

  /** One block more. */
  lemma GrewBlock(m: Mem, m': Mem)
    requires |m'| == |m| + 1 && forall a {:trigger m'[a]} :: 0 <= a < |m| ==> m'[a].stmts == m[a].stmts
    ensures Grew(m, m', |m'[|m|].stmts| + 3, Steady(m'[|m|].stmts))
  {
    RoomSame(m, m', |m|);
    if Steady(m'[|m|].stmts) && AllSteady(m) {
      forall a | 0 <= a < |m'| ensures SteadyAt(m', a) {
        if a < |m| {
          assert SteadyAt(m, a) && m'[a].stmts == m[a].stmts;
        }
      }
    }
  }

  lemma GrewJoined(m: Mem, m': Mem, j: Pair)
    requires Joined(m, m', j)
    ensures Grew(m, m', 0, true)
  {
    forall a | 0 <= a < |m| ensures m'[a].stmts == m[a].stmts {
      assert m'[a] == JoinRec(m, j, a);
    }
    GrewSame(m, m');
  }

  /** Two leaves more. */
  lemma GrewLeaves(m: Mem, m1: Mem, m2: Mem, m3: Mem)
    requires |m1| == |m| + 1 && |m2| == |m1| + 1 == |m3| && m1[|m|].stmts == [] && m2[|m1|].stmts == []
    requires forall a {:trigger m1[a]} :: 0 <= a < |m| ==> m1[a].stmts == m[a].stmts
    requires forall a {:trigger m2[a]} :: 0 <= a < |m1| ==> m2[a].stmts == m1[a].stmts
    requires forall a {:trigger m3[a]} :: 0 <= a < |m2| ==> m3[a].stmts == m2[a].stmts
    ensures Grew(m, m3, 6, true)
  {
    GrewBlock(m, m1);
    GrewBlock(m1, m2);
    GrewSame(m2, m3);
  }

  class Pool {
    var blk: Mem

    constructor ()
      ensures blk == []
    {
      blk := [];
    }

    /** Resolves every exit of a list to `target`. */
    method BackPatch(list: nat, target: nat, ghost chain: seq<nat>)
      requires list < |blk| && Chain(blk, list, chain, blk[list].sense) && NoRepeat(chain)
      modifies this
      ensures Patched(old(blk), blk, Elems(chain), target)
    {
      var p: int := list;
      ghost var k, m := 0, blk;
      while p != -1
        invariant 0 <= k <= |chain|
        invariant p == if k < |chain| then chain[k] else -1
        invariant Patched(m, blk, Elems(chain[..k]), target)
        decreases |chain| - k
      {
        NoRepeatAt(chain, k);
        assert ChainAt(m, list, chain, m[list].sense, k);
        assert chain[..k + 1][..k] == chain[..k];
        var next: int;
        if !blk[p].sense {
          next := blk[p].jt;
          blk := blk[p := blk[p].(jt := target)];
        } else {
          next := blk[p].jf;
          blk := blk[p := blk[p].(jf := target)];
        }
        k := k + 1;
        p := next;
      }
      assert chain[..k] == chain;
    }

    /** Appends list `b1` to the end of list `b0`. */
    method Merge(b0: nat, b1: nat, ghost chain: seq<nat>)
      requires b0 < |blk| && Chain(blk, b0, chain, blk[b0].sense)
      modifies this
      ensures Patched(old(blk), blk, {chain[|chain| - 1]}, b1)
    {
      var p := b0;
      ghost var k := 0;
      assert ChainAt(blk, b0, chain, blk[b0].sense, 0);
      while LinkOf(blk[p], blk[p].sense) != -1
        invariant 0 <= k < |chain| && p == chain[k] && p < |blk|
        invariant ChainAt(blk, b0, chain, blk[b0].sense, k)
        invariant blk == old(blk)
        decreases |chain| - k
      {
        assert ChainAt(blk, b0, chain, blk[b0].sense, k + 1);
        p := LinkOf(blk[p], blk[p].sense);
        k := k + 1;
      }
      if !blk[p].sense {
        blk := blk[p := blk[p].(jt := b1)];
      } else {
        blk := blk[p := blk[p].(jf := b1)];
      }
    }

    /** Conjunction: the yes exits of `b0` are resolved to the entry of `b1`; the no
        exits of both are merged into one list. */
    method GenAnd(b0: nat, b1: nat, ghost P0: Pend, ghost P1: Pend)
      requires Pending(blk, b0, P0) && Pending(blk, b1, P1) && P0.f.nodes.Keys !! P1.f.nodes.Keys
      modifies this
      ensures Pending(blk, b1, JoinPend(P0, P1, Yes))
      ensures Same(old(blk), blk, P0.f.nodes.Keys + P1.f.nodes.Keys) && |blk| == |old(blk)|
      ensures Grew(old(blk), blk, 0, true)
    {
      ghost var m, j := blk, Pair(b0, P0, b1, P1, Yes);
      LinkAnd(b0, b1, P0, P1);
      GrewJoined(m, blk, j);
      JoinSame(m, blk, j);
      JoinPending(m, blk, j);
    }

    /** The list operations of a conjunction. */
    method LinkAnd(b0: nat, b1: nat, ghost P0: Pend, ghost P1: Pend)
      requires b0 < |blk| && Chain(blk, b0, P0.tl, blk[b0].sense) && NoRepeat(P0.tl) && b0 in P0.f.nodes
      requires b1 < |blk| && Chain(blk, b1, P1.fl, !blk[b1].sense) && b1 in P1.f.nodes
      requires P0.f.nodes.Keys !! P1.f.nodes.Keys
      requires Elems(P0.tl) <= P0.f.nodes.Keys && Elems(P1.fl) <= P1.f.nodes.Keys
      requires blk[b0].head == P0.f.head && blk[b1].head == P1.f.head
      modifies this
      ensures Joined(old(blk), blk, Pair(b0, P0, b1, P1, Yes))
    {
      ghost var m := blk;
      ResolveYes(b0, blk[b1].head, P0.tl);
      ChainReread(m, blk, b1, P1.fl, !m[b1].sense);
      ElemsIn(P1.fl, Last(P1.fl));
      ghost var m1 := blk;
      AppendNo(b1, b0, P1.fl);
      blk := blk[b1 := blk[b1].(head := blk[b0].head)];
      forall a | 0 <= a < |blk| ensures blk[a] == JoinRec(m, Pair(b0, P0, b1, P1, Yes), a) {
        assert a != b1 || a != b0;
      }
    }

    /** Resolves the yes exits of `b` to `target`, and leaves `b` heading its no list. */
    method ResolveYes(b: nat, target: nat, ghost list: seq<nat>)
      requires b < |blk| && Chain(blk, b, list, blk[b].sense) && NoRepeat(list)
      modifies this
      ensures |blk| == |old(blk)|
      ensures forall a :: 0 <= a < |blk| ==>
        var r := if a in Elems(list) then PatchRec(old(blk)[a], old(blk)[a].sense, target) else old(blk)[a];
        blk[a] == if a == b then r.(sense := !r.sense) else r
    {
      BackPatch(b, target, list);
      blk := blk[b := blk[b].(sense := !blk[b].sense)];
    }

    /** Appends `b0` to the no list of `b`. */
    method AppendNo(b: nat, b0: nat, ghost list: seq<nat>)
      requires b < |blk| && Chain(blk, b, list, !blk[b].sense)
      modifies this
      ensures |blk| == |old(blk)|
      ensures forall a :: 0 <= a < |blk| ==>
        blk[a] == if a == Last(list) then PatchRec(old(blk)[a], SenseAt(old(blk), b, !old(blk)[b].sense, a), b0)
                  else old(blk)[a]
    {
      ghost var m := blk;
      blk := blk[b := blk[b].(sense := !blk[b].sense)];
      ChainReread(m, blk, b, list, !m[b].sense);
      Merge(b, b0, list);
      blk := blk[b := blk[b].(sense := !blk[b].sense)];
    }

    /** Disjunction: the no exits of `b0` are resolved to the entry of `b1`; the yes
        exits of both are merged into one list. */
    method GenOr(b0: nat, b1: nat, ghost P0: Pend, ghost P1: Pend)
      requires Pending(blk, b0, P0) && Pending(blk, b1, P1) && P0.f.nodes.Keys !! P1.f.nodes.Keys
      modifies this
      ensures Pending(blk, b1, JoinPend(P0, P1, No))
      ensures Same(old(blk), blk, P0.f.nodes.Keys + P1.f.nodes.Keys) && |blk| == |old(blk)|
      ensures Grew(old(blk), blk, 0, true)
    {
      ghost var m, j := blk, Pair(b0, P0, b1, P1, No);
      LinkOr(b0, b1, P0, P1);
      GrewJoined(m, blk, j);
      JoinSame(m, blk, j);
      JoinPending(m, blk, j);
    }

    /** The list operations of a disjunction. */
    method LinkOr(b0: nat, b1: nat, ghost P0: Pend, ghost P1: Pend)
      requires b0 < |blk| && Chain(blk, b0, P0.fl, !blk[b0].sense) && NoRepeat(P0.fl) && b0 in P0.f.nodes
      requires b1 < |blk| && Chain(blk, b1, P1.tl, blk[b1].sense) && b1 in P1.f.nodes
      requires P0.f.nodes.Keys !! P1.f.nodes.Keys
      requires Elems(P0.fl) <= P0.f.nodes.Keys && Elems(P1.tl) <= P1.f.nodes.Keys
      requires blk[b0].head == P0.f.head && blk[b1].head == P1.f.head
      modifies this
      ensures Joined(old(blk), blk, Pair(b0, P0, b1, P1, No))
    {
      ghost var m := blk;
      ResolveNo(b0, blk[b1].head, P0.fl);
      ChainReread(m, blk, b1, P1.tl, m[b1].sense);
      ghost var m1 := blk;
      Merge(b1, b0, P1.tl);
      blk := blk[b1 := blk[b1].(head := blk[b0].head)];
      forall a | 0 <= a < |blk| ensures blk[a] == JoinRec(m, Pair(b0, P0, b1, P1, No), a) {
        OrRec(m, m1, blk, b0, b1, P0, P1, a);
      }
    }

    /** Resolves the no exits of `b` to `target`. */
    method ResolveNo(b: nat, target: nat, ghost list: seq<nat>)
      requires b < |blk| && Chain(blk, b, list, !blk[b].sense) && NoRepeat(list)
      modifies this
      ensures |blk| == |old(blk)|
      ensures forall a :: 0 <= a < |blk| ==>
        blk[a] == if a in Elems(list) then PatchRec(old(blk)[a], SenseAt(old(blk), b, !old(blk)[b].sense, a), target)
                  else old(blk)[a]
    {
      ghost var m := blk;
      blk := blk[b := blk[b].(sense := !blk[b].sense)];
      ChainReread(m, blk, b, list, !m[b].sense);
      BackPatch(b, target, list);
      blk := blk[b := blk[b].(sense := !blk[b].sense)];
    }

    /** Negation flips which field of the expression's own block is its yes exit. */
    method GenNot(b: nat, ghost P: Pend)
      requires Pending(blk, b, P)
      modifies this
      ensures Pending(blk, b, NotPend(P))
      ensures Same(old(blk), blk, P.f.nodes.Keys) && |blk| == |old(blk)| && Grew(old(blk), blk, 0, true)
    {
      blk := blk[b := blk[b].(sense := !blk[b].sense)];
      NotPending(old(blk), blk, b, P);
      GrewSame(old(blk), blk);
    }

    /** A fresh zeroed block with its branch code set, its own head. */
    method NewBlock(code: Code) returns (b: nat)
      modifies this
      ensures b == |old(blk)| && blk == old(blk) + [Rec([], Stmt(code, 0), -1, -1, false, b)]
    {
      b := |blk|;
      blk := blk + [Rec([], Stmt(code, 0), -1, -1, false, b)];
    }

    method GenRetBlk(v: Word) returns (b: nat)
      modifies this
      ensures b == |old(blk)| && blk == old(blk) + [Rec([], Stmt(RetK, v), -1, -1, false, b)]
    {
      b := NewBlock(RetK);
      blk := blk[b := blk[b].(s := Stmt(RetK, v))];
    }

    /** A block that runs `stmts` and then tests: both of its exits are open. */
    method NewTest(code: Code, k: Word, stmts: seq<Stmt>) returns (b: nat)
      requires TestBlock(stmts, Stmt(code, k))
      modifies this
      ensures b == |old(blk)| && |blk| == b + 1 && Same(old(blk), blk, {})
      ensures Pending(blk, b, AtomPend(b, stmts, Stmt(code, k))) && Grew(old(blk), blk, |stmts| + 3, Steady(stmts))
    {
      b := NewBlock(code);
      blk := blk[b := blk[b].(stmts := stmts, s := Stmt(code, k))];
      GrewBlock(old(blk), blk);
      AtomPending(blk, b, stmts, Stmt(code, k));
    }

    /** Closes the whole expression: yes exits lead to a return of the snapshot
        length, no exits to a return of 0. */
    method FinishParse(p: nat, snaplen: Word, ghost P: Pend) returns (root: nat, ghost yes: nat, ghost no: nat)
      requires Pending(blk, p, P)
      modifies this
      ensures yes == |old(blk)| && no == |old(blk)| + 1
      ensures Closes(GraphOf(blk), P.f, yes, no, snaplen) && Grew(old(blk), blk, 6, true)
      ensures root == P.f.head
    {
      ghost var m := blk;
      InMemory(m, p, P);
      var y := FinishYes(p, snaplen, P);
      ghost var m1 := blk;
      FinishChain(m, m1, p, P, y);
      var n := GenRetBlk(0);
      ChainReread(m1, blk, p, P.fl, !m[p].sense);
      ghost var m2 := blk;
      BackPatch(p, n, P.fl);
      forall a | 0 <= a < |m| ensures m1[a].stmts == m[a].stmts {
        assert FinishedAt(m, m1, p, P, y, -1, a);
      }
      GrewLeaves(m, m1, m2, blk);
      root := blk[p].head;
      yes, no := y, n;
      forall a | 0 <= a < |m| ensures FinishedAt(m, blk, p, P, y, n, a) {
        FinishNo(m, m1, blk, p, P, y, n, a);
      }
      FinishCloses(m, blk, p, P, y, n, snaplen);
    }

    /** The first half of closing an expression: its yes exits. */
    method FinishYes(p: nat, snaplen: Word, ghost P: Pend) returns (y: nat)
      requires p < |blk| && Chain(blk, p, P.tl, blk[p].sense) && NoRepeat(P.tl)
      requires Elems(P.tl) <= P.f.nodes.Keys
      requires forall a :: a in P.f.nodes ==> a < |blk|
      modifies this
      ensures y == |old(blk)| && |blk| == y + 1 && blk[y] == Rec([], Stmt(RetK, snaplen), -1, -1, false, y)
      ensures blk[p].sense == !old(blk)[p].sense
      ensures forall a :: 0 <= a < y ==> FinishedAt(old(blk), blk, p, P, y, -1, a)
    {
      ghost var m := blk;
      y := GenRetBlk(snaplen);
      ChainReread(m, blk, p, P.tl, m[p].sense);
      ResolveYes(p, y, P.tl);
    }
  }
}
