/** Which values are constant, read off the statements alone: a list is steady when, whatever
    it is entered with, folding in it never disagrees with the machine and nothing is divided
    by what is known to be 0. */
module Constancy {
  import opened Bpf
  import opened Flow
  import opened Atoms
  import opened Folding
  import opened Seal

  /** The pass finds the constant `c` there; it finds no constant; or it may do either. */
  datatype Abs = Is(c: Word) | Varies | Unsure

  type AbsStore = s: seq<Abs> | |s| == N_ATOMS witness seq(N_ATOMS, i => Unsure)

  /** What an operation makes of such operands. */
  function AbsAlu(op: AluOp, a: Abs, x: Abs): Abs {
    match x
    case Unsure => Unsure
    case Is(k) =>
      (match a
       case Is(c) => if FoldDefined(op, c, k) then Is(Folded(op, c, k)) else Unsure
       case _ => a)
    case Varies =>
      (match a
       case Unsure => Unsure
       case Varies => Varies
       case Is(c) => if c == 0 && !op.Sub? && !op.Add? && !op.Or? then Is(0) else Varies)
  }

  function AbsNeg(a: Abs): Abs {
    match a
    case Is(c) => Is(Wrap(WORD_LIMIT - c))
    case _ => a
  }

  function AbsExec(s: Stmt, st: AbsStore): AbsStore {
    match s.code
    case LdImm => st[A := Is(s.k)]
    case LdxImm => st[X := Is(s.k)]
    case LdLen => st[A := Varies]
    case LdAbs(_) => st[A := Varies]
    case LdInd(_) => st[A := Varies]
    case LdxMsh => st[X := Varies]
    case Neg => st[A := AbsNeg(st[A])]
    case AluK(op) =>
      if NoEffect(s) then st
      else if Clears(s) then st[A := Is(0)]
      else st[A := AbsAlu(op, st[A], Is(s.k))]
    case AluX(op) => st[A := AbsAlu(op, st[A], st[X])]
    case _ =>
      if !Copies(s) || CopyTo(s) >= N_ATOMS then st
      else st[CopyTo(s) := if CopyFrom(s) < N_ATOMS then st[CopyFrom(s)] else Unsure]
  }

  /** Nothing is divided by a constant 0, and no fold of a division or a shift can
      disagree. */
  predicate OkAlu(op: AluOp, a: Abs, x: Abs) {
    op.Div? || op.Lsh? || op.Rsh? ==>
      && !x.Unsure? && (op.Div? ==> x != Is(0))
      && (x.Is? ==> a.Varies? || (a.Is? && FoldAgrees(op, a.c, x.c)))
  }

  predicate Ok(s: Stmt, st: AbsStore) {
    match s.code
    case AluK(op) => OkAlu(op, st[A], Is(s.k))
    case AluX(op) => OkAlu(op, st[A], st[X])
    case _ => true
  }

  function AbsRun(ss: seq<Stmt>, st: AbsStore): AbsStore {
    if ss == [] then st else AbsRun(ss[1..], AbsExec(ss[0], st))
  }

  predicate OkRun(ss: seq<Stmt>, st: AbsStore) {
    ss == [] || (Ok(ss[0], st) && OkRun(ss[1..], AbsExec(ss[0], st)))
  }

  const UNSURE_STORE: AbsStore :=
    [Unsure, Unsure, Unsure, Unsure, Unsure, Unsure, Unsure, Unsure, Unsure,
     Unsure, Unsure, Unsure, Unsure, Unsure, Unsure, Unsure, Unsure, Unsure]

  predicate Steady(ss: seq<Stmt>) {
    OkRun(ss, UNSURE_STORE)
  }

  /** Every block's statements are steady. */
  ghost predicate SteadyGraph(g: Graph) {
    forall b {:trigger g[b]} :: 0 <= b < |g| ==> Steady(g[b].stmts)
  }

  lemma {:induction false} AbsAppend(a: seq<Stmt>, b: seq<Stmt>, st: AbsStore)
    ensures AbsRun(a + b, st) == AbsRun(b, AbsRun(a, st))
    ensures OkRun(a + b, st) <==> OkRun(a, st) && OkRun(b, AbsRun(a, st))
  {
    if a == [] {
      assert a + b == b;
    } else {
      assert (a + b)[0] == a[0] && (a + b)[1..] == a[1..] + b;
      AbsAppend(a[1..], b, AbsExec(a[0], st));
    }
  }

  lemma AbsOne(s0: Stmt, st: AbsStore)
    ensures AbsRun([s0], st) == AbsExec(s0, st)
    ensures OkRun([s0], st) <==> Ok(s0, st)
  {
  }

  lemma AbsTwo(s0: Stmt, s1: Stmt, st: AbsStore)
    ensures AbsRun([s0, s1], st) == AbsExec(s1, AbsExec(s0, st))
    ensures OkRun([s0, s1], st) <==> Ok(s0, st) && Ok(s1, AbsExec(s0, st))
  {
    assert [s0, s1] == [s0] + [s1];
    AbsAppend([s0], [s1], st);
    AbsOne(s0, st);
    AbsOne(s1, AbsExec(s0, st));
  }

  lemma AbsThree(s0: Stmt, s1: Stmt, s2: Stmt, st: AbsStore)
    ensures AbsRun([s0, s1, s2], st) == AbsExec(s2, AbsExec(s1, AbsExec(s0, st)))
    ensures OkRun([s0, s1, s2], st) <==> Ok(s0, st) && Ok(s1, AbsExec(s0, st)) && Ok(s2, AbsExec(s1, AbsExec(s0, st)))
  {
    assert [s0, s1, s2] == [s0, s1] + [s2];
    AbsAppend([s0, s1], [s2], st);
    AbsTwo(s0, s1, st);
    AbsOne(s2, AbsExec(s1, AbsExec(s0, st)));
  }

  /** Without divisions and shifts there is nothing to fear. */
  lemma {:induction false} CalmOk(ss: seq<Stmt>, st: AbsStore)
    requires Calm(ss)
    ensures OkRun(ss, st)
  {
    if ss != [] {
      assert !Risky(ss[0]);
      CalmOk(ss[1..], AbsExec(ss[0], st));
    }
  }

  // ----- code that leaves its values in registers

  /** Which scratch registers hold a value that is still needed. */
  type Used = u: seq<bool> | |u| == MEMWORDS witness seq(MEMWORDS, i => false)

  /** What the code leaves in two registers (they may be the same); it changes no
      register in use, and no statement of it is amiss if `steady`. */
  ghost predicate LeavesAt(s: seq<Stmt>, rl: nat, v: Abs, rr: nat, w: Abs, used: Used, steady: bool, st: AbsStore) {
    && rl < MEMWORDS && rr < MEMWORDS
    && AbsRun(s, st)[rl] == v && AbsRun(s, st)[rr] == w && (steady ==> OkRun(s, st))
    && forall r {:trigger used[r]} :: 0 <= r < MEMWORDS && used[r] ==> AbsRun(s, st)[r] == st[r]
  }

  ghost predicate LeavesKinds(s: seq<Stmt>, rl: nat, v: Abs, rr: nat, w: Abs, used: Used, steady: bool) {
    forall u {:trigger Opened(u)} :: Opened(u) ==>
      forall st {:trigger AbsRun(s, st)} :: LeavesAt(s, rl, v, rr, w, used, steady, st)
  }

  /** The code puts `v` in one register. */
  ghost predicate Puts(t: seq<Stmt>, n: nat, v: Abs, steady: bool, st: AbsStore) {
    && n < MEMWORDS && AbsRun(t, st)[n] == v && (steady ==> OkRun(t, st))
    && forall r {:trigger st[r]} :: 0 <= r < MEMWORDS && r != n ==> AbsRun(t, st)[r] == st[r]
  }

  lemma LeavesFirst(t: seq<Stmt>, n: nat, v: Abs, used: Used)
    requires n < MEMWORDS && !used[n] && forall st {:trigger Puts(t, n, v, true, st)} :: Puts(t, n, v, true, st)
    ensures LeavesKinds(t, n, v, n, v, used, true)
  {
    forall st ensures LeavesAt(t, n, v, n, v, used, true, st) {
      assert Puts(t, n, v, true, st);
    }
  }

  lemma LeavesMore(s: seq<Stmt>, rl: nat, v: Abs, rr: nat, w: Abs, used: Used, steady: bool,
                   t: seq<Stmt>, n: nat, v': Abs, steady': bool)
    requires LeavesKinds(s, rl, v, rr, w, used, steady) && n < MEMWORDS && !used[n] && (steady' ==> steady)
    requires rl < MEMWORDS && rr < MEMWORDS
    requires forall st: AbsStore {:trigger Puts(t, n, v', steady', st)} ::
      st[rl] == v && st[rr] == w ==> Puts(t, n, v', steady', st)
    ensures LeavesKinds(s + t, n, v', n, v', used, steady')
  {
    assert Opened(Key);
    forall st ensures LeavesAt(s + t, n, v', n, v', used, steady', st) {
      AbsAppend(s, t, st);
      assert LeavesAt(s, rl, v, rr, w, used, steady, st);
      assert Puts(t, n, v', steady', AbsRun(s, st));
    }
  }

  /** The second code leaves the first one's register alone. */
  lemma LeavesBoth(s: seq<Stmt>, rl: nat, v: Abs, t: seq<Stmt>, rr: nat, w: Abs, used: Used,
                   steady: bool, steady': bool)
    requires rl < MEMWORDS && LeavesKinds(s, rl, v, rl, v, used, steady) &&
      LeavesKinds(t, rr, w, rr, w, used[rl := true], steady')
    ensures LeavesKinds(s + t, rl, v, rr, w, used, steady && steady')
  {
    assert Opened(Key);
    var both, taken := steady && steady', used[rl := true];
    assert taken[rl] && forall r {:trigger used[r]} :: 0 <= r < MEMWORDS && used[r] ==> taken[r];
    forall st ensures LeavesAt(s + t, rl, v, rr, w, used, both, st) {
      AbsAppend(s, t, st);
      assert LeavesAt(s, rl, v, rl, v, used, steady, st);
      assert LeavesAt(t, rr, w, rr, w, taken, steady', AbsRun(s, st));
    }
  }

  lemma LeavesSteady(s: seq<Stmt>, rl: nat, v: Abs, rr: nat, w: Abs, used: Used, steady: bool, t: seq<Stmt>)
    requires LeavesKinds(s, rl, v, rr, w, used, steady) && steady && Calm(t)
    ensures Steady(s + t)
  {
    assert Opened(Key);
    AbsAppend(s, t, UNSURE_STORE);
    assert LeavesAt(s, rl, v, rr, w, used, steady, UNSURE_STORE);
    CalmOk(t, AbsRun(s, UNSURE_STORE));
  }
}
