/** What it is for an atom to be live: some path leads to a read of it that comes before any
    write. */
module LivePaths {
  import opened Bpf
  import opened Flow
  import opened Atoms
  import opened Liveness
  import opened DeadStores

  // ----- what statements read and write

  predicate Reads(s: Stmt, a: nat) {
    match s.code
    case LdInd(_) => a == X
    case LdMem => a == s.k
    case LdxMem => a == s.k
    case St => a == A
    case Stx => a == X
    case AluK(_) => a == A
    case AluX(_) => a == A || a == X
    case Neg => a == A
    case Tax => a == A
    case Txa => a == X
    case JmpK(_) => a == A
    case JmpX(_) => a == A || a == X
    case RetA => a == A
    case _ => false
  }

  predicate Writes(s: Stmt, a: nat) {
    match s.code
    case LdAbs(_) => a == A
    case LdInd(_) => a == A
    case LdLen => a == A
    case LdImm => a == A
    case LdMem => a == A
    case LdxImm => a == X
    case LdxMem => a == X
    case LdxMsh => a == X
    case St => a == s.k
    case Stx => a == s.k
    case AluK(_) => a == A
    case AluX(_) => a == A
    case Neg => a == A
    case Tax => a == X
    case Txa => a == A
    case _ => false
  }

  lemma ReadsIs(s: Stmt, a: nat)
    ensures Reads(s, a) <==> a in Uses(s)
    ensures Writes(s, a) <==> a in DefSet(s)
  {
  }

  /** None of the first `k` statements writes the atom. */
  predicate Unwritten(ss: seq<Stmt>, k: nat, a: nat)
    requires k <= |ss|
  {
    forall j {:trigger ss[j]} :: 0 <= j < k ==> !Writes(ss[j], a)
  }

  /** Statement `k` reads the atom, and none before it writes it. */
  predicate ReadAt(ss: seq<Stmt>, a: nat, k: nat) {
    k < |ss| && Reads(ss[k], a) && Unwritten(ss, k, a)
  }

  /** The block reads the atom, in a statement or in its branch, before it writes it. */
  ghost predicate ReadsFirst(n: Node, a: nat) {
    || (exists k: nat {:trigger ReadAt(n.stmts, a, k)} :: ReadAt(n.stmts, a, k))
    || (!n.Leaf() && Reads(n.s, a) && Unwritten(n.stmts, |n.stmts|, a))
  }

  /** A path from `b` to a block that reads the atom first, over blocks that do not write
      it. */
  ghost predicate ReadAlong(g: Graph, b: int, ns: seq<int>, a: nat)
    decreases |ns|
  {
    && ns != [] && ns[0] == b && 0 <= b < |g|
    && (if |ns| == 1 then ReadsFirst(g[b], a)
        else
          && !g[b].Leaf() && (ns[1] == g[b].jt || ns[1] == g[b].jf)
          && Unwritten(g[b].stmts, |g[b].stmts|, a) && ReadAlong(g, ns[1], ns[1..], a))
  }

  /** The atom is read along some path from `b` before anything on the path writes it. */
  ghost predicate ReadOn(g: Graph, b: int, a: nat) {
    exists ns {:trigger ReadAlong(g, b, ns, a)} :: ReadAlong(g, b, ns, a)
  }

  // ----- the sets are exact

  lemma {:induction false} UnwrittenDefs(ss: seq<Stmt>, a: nat)
    ensures Unwritten(ss, |ss|, a) <==> a !in DefsOf(ss)
  {
    if ss != [] {
      var init, s := ss[..|ss| - 1], ss[|ss| - 1];
      UnwrittenDefs(init, a);
      ReadsIs(s, a);
      assert Unwritten(ss, |ss|, a) <==> Unwritten(init, |init|, a) && !Writes(s, a) by {
        assert forall j {:trigger ss[j]} {:trigger init[j]} :: 0 <= j < |init| ==> ss[j] == init[j];
      }
    }
  }

  lemma {:induction false} WantedExact(ss: seq<Stmt>, a: nat)
    ensures a in Wanted(ss) <==> exists k: nat {:trigger ReadAt(ss, a, k)} :: ReadAt(ss, a, k)
  {
    if ss != [] {
      var init, s := ss[..|ss| - 1], ss[|ss| - 1];
      WantedExact(init, a);
      UnwrittenDefs(init, a);
      ReadsIs(s, a);
      forall k: nat ensures k < |init| ==> (ReadAt(ss, a, k) <==> ReadAt(init, a, k)) {
        if k < |init| {
          PrefixUnwritten(ss, init, k, a);
        }
      }
      PrefixUnwritten(ss, init, |init|, a);
      assert ReadAt(ss, a, |init|) <==> a in Uses(s) && a !in DefsOf(init);
    }
  }

  lemma PrefixUnwritten(ss: seq<Stmt>, init: seq<Stmt>, k: nat, a: nat)
    requires k <= |init| <= |ss| && init == ss[..|init|]
    ensures Unwritten(ss, k, a) <==> Unwritten(init, k, a)
  {
    assert forall j {:trigger ss[j]} {:trigger init[j]} :: 0 <= j < k ==> ss[j] == init[j];
  }

  lemma BlockExact(n: Node, a: nat)
    ensures a in BlockWants(n) <==> ReadsFirst(n, a)
  {
    WantedExact(n.stmts, a);
    UnwrittenDefs(n.stmts, a);
    ReadsIs(n.s, a);
  }

  /** Every path that reads the atom makes it live, */
  lemma {:induction false} AlongLive(g: Graph, rank: Rank, b: int, ns: seq<int>, a: nat)
    requires WellFormed(g, rank) && b in rank && ReadAlong(g, b, ns, a)
    ensures a in LiveIn(g, rank, b)
    decreases |ns|
  {
    assert NodeOk(g, rank, b);
    BlockExact(g[b], a);
    UnwrittenDefs(g[b].stmts, a);
    if |ns| > 1 {
      AlongLive(g, rank, ns[1], ns[1..], a);
    }
  }

  /** and a live atom has such a path. */
  lemma {:induction false} LiveAlong(g: Graph, rank: Rank, b: int, a: nat) returns (ns: seq<int>)
    requires WellFormed(g, rank) && b in rank && a in LiveIn(g, rank, b)
    ensures ReadAlong(g, b, ns, a)
    decreases rank[b]
  {
    assert NodeOk(g, rank, b);
    BlockExact(g[b], a);
    UnwrittenDefs(g[b].stmts, a);
    if a in BlockWants(g[b]) {
      ns := [b];
    } else {
      var c := if a in LiveIn(g, rank, g[b].jt) then g[b].jt else g[b].jf;
      var ms := LiveAlong(g, rank, c, a);
      ns := [b] + ms;
      assert ns[1..] == ms;
    }
  }

  /** An atom is live on entry to a block exactly when some path from the block reads it
      before anything on the path writes it. */
  lemma LiveInExact(g: Graph, rank: Rank, b: int, a: nat)
    requires WellFormed(g, rank) && b in rank
    ensures a in LiveIn(g, rank, b) <==> ReadOn(g, b, a)
  {
    if a in LiveIn(g, rank, b) {
      var ns := LiveAlong(g, rank, b, a);
      assert ReadAlong(g, b, ns, a);
    }
    if ns :| ReadAlong(g, b, ns, a) {
      AlongLive(g, rank, b, ns, a);
    }
  }

  /** It is live on exit exactly when such a path begins with a successor. */
  lemma LiveOutExact(g: Graph, rank: Rank, b: int, a: nat)
    requires WellFormed(g, rank) && b in rank
    ensures 0 <= b < |g|
    ensures a in LiveOut(g, rank, b) <==>
      !g[b].Leaf() && (ReadOn(g, g[b].jt, a) || ReadOn(g, g[b].jf, a))
  {
    assert NodeOk(g, rank, b);
    if !g[b].Leaf() {
      LiveInExact(g, rank, g[b].jt, a);
      LiveInExact(g, rank, g[b].jf, a);
    }
  }

  // ----- dead writes

  /** Statement `k` reads the atom, and none from `i` up to it writes it. */
  predicate ReadFrom(ss: seq<Stmt>, a: nat, i: nat, k: nat) {
    i <= k < |ss| && Reads(ss[k], a) && forall j {:trigger ss[j]} :: i <= j < k ==> !Writes(ss[j], a)
  }

  /** What an atom holds before statement `i` is read before it is written, by a statement,
      by the branch, or behind the block. */
  ghost predicate ReadLater(ss: seq<Stmt>, branch: Stmt, out: set<nat>, a: nat, i: nat) {
    || (exists k: nat {:trigger ReadFrom(ss, a, i, k)} :: ReadFrom(ss, a, i, k))
    || ((Reads(branch, a) || a in out) && forall j {:trigger ss[j]} :: i <= j < |ss| ==> !Writes(ss[j], a))
  }

  lemma {:induction false} FateExact(ss: seq<Stmt>, a: nat, i: nat)
    requires i <= |ss|
    ensures FateOf(ss, a, i, |ss|) == Fate.Read <==>
      exists k: nat {:trigger ReadFrom(ss, a, i, k)} :: ReadFrom(ss, a, i, k)
    ensures FateOf(ss, a, i, |ss|) == Left ==> forall j {:trigger ss[j]} :: i <= j < |ss| ==> !Writes(ss[j], a)
    ensures FateOf(ss, a, i, |ss|) == Overwritten ==> exists j {:trigger ss[j]} :: i <= j < |ss| && Writes(ss[j], a)
    decreases |ss| - i
  {
    if i < |ss| {
      ReadsIs(ss[i], a);
      FateExact(ss, a, i + 1);
      assert ReadFrom(ss, a, i, i) <==> Reads(ss[i], a);
      if k: nat :| ReadFrom(ss, a, i, k) && k > i {
        assert !Writes(ss[i], a) && ReadFrom(ss, a, i + 1, k);
      }
      var i1 := i + 1;
      if k: nat :| ReadFrom(ss, a, i1, k) && !Writes(ss[i], a) {
        assert ReadFrom(ss, a, i, k);
      }
    }
  }

  /** A write is deleted exactly when what it writes is never read. */
  lemma DeadExact(ss: seq<Stmt>, branch: Stmt, out: set<nat>, j: nat)
    requires j < |ss|
    ensures Dead(ss, branch, out, j) <==>
      exists a: nat {:trigger Writes(ss[j], a)} :: Writes(ss[j], a) && !ReadLater(ss, branch, out, a, j + 1)
  {
    forall a: nat ensures Writes(ss[j], a) <==> Defs(ss[j]) == Some(a) {
      ReadsIs(ss[j], a);
    }
    if Defs(ss[j]).Some? {
      var a := Defs(ss[j]).value;
      FateExact(ss, a, j + 1);
      ReadsIs(branch, a);
    }
  }
}
