/** Which atoms (A, X and the scratch registers) statements read and write. */
module Atoms {
  import opened Bpf

  /** The atoms a statement reads. */
  function Uses(s: Stmt): (u: set<nat>)
    ensures forall a :: a in u ==> a < N_ATOMS || a == s.k
  {
    match s.code
    case LdInd(_) => {X}
    case LdMem => {s.k}
    case LdxMem => {s.k}
    case St => {A}
    case Stx => {X}
    case AluK(_) => {A}
    case AluX(_) => {A, X}
    case Neg => {A}
    case Tax => {A}
    case Txa => {X}
    case JmpK(_) => {A}
    case JmpX(_) => {A, X}
    case RetA => {A}
    case _ => {}
  }

  /** The atom a statement writes. */
  function Defs(s: Stmt): (d: Option<nat>) {
    match s.code
    case LdAbs(_) => Some(A)
    case LdInd(_) => Some(A)
    case LdLen => Some(A)
    case LdImm => Some(A)
    case LdMem => Some(A)
    case LdxImm => Some(X)
    case LdxMem => Some(X)
    case LdxMsh => Some(X)
    case St => Some(s.k)
    case Stx => Some(s.k)
    case AluK(_) => Some(A)
    case AluX(_) => Some(A)
    case Neg => Some(A)
    case Tax => Some(X)
    case Txa => Some(A)
    case _ => None
  }

  function DefSet(s: Stmt): set<nat> {
    match Defs(s) case None => {} case Some(a) => {a}
  }

  /** A statement changes only the atom it defines. */
  lemma OnlyDefines(s: Stmt, st: Store, p: Packet, a: nat)
    requires a < N_ATOMS && a !in DefSet(s) && Exec(s, st, p).Some?
    ensures Exec(s, st, p).value[a] == st[a]
  {
  }

  /** What it defines depends only on the packet and the atoms it uses. */
  lemma UsesOnly(s: Stmt, st: Store, st': Store, p: Packet)
    requires forall a :: a in Uses(s) && a < N_ATOMS ==> st[a] == st'[a]
    ensures Exec(s, st, p).Some? <==> Exec(s, st', p).Some?
    ensures Exec(s, st, p).Some? ==>
      forall a :: a in DefSet(s) && a < N_ATOMS ==> Exec(s, st, p).value[a] == Exec(s, st', p).value[a]
  {
    match s.code {
      case LdMem => if s.k < MEMWORDS { assert s.k in Uses(s); }
      case LdxMem => if s.k < MEMWORDS { assert s.k in Uses(s); }
      case _ =>
    }
  }

  lemma UsesOnlyBranch(s: Stmt, st: Store, st': Store)
    requires forall a :: a in Uses(s) && a < N_ATOMS ==> st[a] == st'[a]
    ensures Holds(s, st) == Holds(s, st')
  {
  }

  // ----- states that agree

  ghost predicate AgreeOn(D: set<nat>, st: Store, st': Store) {
    forall a {:trigger st[a]} {:trigger st'[a]} :: a in D && 0 <= a < N_ATOMS ==> st[a] == st'[a]
  }

  lemma StmtAgree(s: Stmt, D: set<nat>, st: Store, st': Store, p: Packet)
    requires Uses(s) <= D && AgreeOn(D, st, st')
    ensures Exec(s, st, p).Some? <==> Exec(s, st', p).Some?
    ensures Exec(s, st, p).Some? ==> AgreeOn(D + DefSet(s), Exec(s, st, p).value, Exec(s, st', p).value)
  {
    UsesOnly(s, st, st', p);
    if Exec(s, st, p).Some? {
      forall a | a in D + DefSet(s) && 0 <= a < N_ATOMS
        ensures Exec(s, st, p).value[a] == Exec(s, st', p).value[a] {
        if a !in DefSet(s) {
          OnlyDefines(s, st, p, a);
          OnlyDefines(s, st', p, a);
        }
      }
    }
  }

  // ----- statement lists

  function DefsOf(ss: seq<Stmt>): set<nat> {
    if ss == [] then {} else DefsOf(ss[..|ss| - 1]) + DefSet(ss[|ss| - 1])
  }

  /** Where a copy comes from and goes to. */
  function CopyFrom(s: Stmt): nat {
    match s.code
    case Txa => X
    case Stx => X
    case LdMem => s.k
    case LdxMem => s.k
    case _ => A
  }

  function CopyTo(s: Stmt): nat {
    match s.code
    case Tax => X
    case LdxMem => X
    case St => s.k
    case Stx => s.k
    case _ => A
  }

  predicate Copies(s: Stmt) {
    s.code.Txa? || s.code.Tax? || s.code.LdMem? || s.code.LdxMem? || s.code.St? || s.code.Stx?
  }

  /** Every atom read has been written earlier in the list. */
  predicate ClosedList(ss: seq<Stmt>) {
    forall k {:trigger ss[k]} :: 0 <= k < |ss| ==> Uses(ss[k]) <= DefsOf(ss[..k])
  }

  /** A list of statements and a test that a block may consist of: they fall through and
      do not divide by the constant 0, the test branches, and everything read has been
      written before. */
  predicate TestBlock(ss: seq<Stmt>, s: Stmt) {
    && TwoWay(s) && (forall k {:trigger ss[k]} :: 0 <= k < |ss| ==> Safe(ss[k]))
    && ClosedList(ss) && Uses(s) <= DefsOf(ss)
  }

  lemma ClosedSnoc(ss: seq<Stmt>, s: Stmt)
    requires ClosedList(ss) && Uses(s) <= DefsOf(ss)
    ensures ClosedList(ss + [s]) && DefsOf(ss + [s]) == DefsOf(ss) + DefSet(s)
  {
    var r := ss + [s];
    assert r[..|ss|] == ss;
    forall k | 0 <= k < |r| ensures Uses(r[k]) <= DefsOf(r[..k]) {
      if k < |ss| {
        assert r[k] == ss[k] && r[..k] == ss[..k];
      }
    }
  }

  /** Reads of the second list may rely on the writes of the first. */
  lemma {:induction false} ClosedAppend(a: seq<Stmt>, b: seq<Stmt>)
    requires ClosedList(a) && ClosedList(b)
    ensures ClosedList(a + b) && DefsOf(a + b) == DefsOf(a) + DefsOf(b)
    decreases |b|
  {
    if b == [] {
      assert a + b == a;
    } else {
      var init, s := b[..|b| - 1], b[|b| - 1];
      forall k | 0 <= k < |init| ensures Uses(init[k]) <= DefsOf(init[..k]) {
        assert init[k] == b[k] && init[..k] == b[..k];
      }
      ClosedAppend(a, init);
      assert Uses(b[|b| - 1]) <= DefsOf(b[..|b| - 1]);
      ClosedSnoc(a + init, s);
      assert a + init + [s] == a + b;
    }
  }

  lemma ExecSnoc(ss: seq<Stmt>, s: Stmt, st: Store, p: Packet)
    ensures ExecList(ss + [s], st, p) ==
            (match ExecList(ss, st, p) case None => None case Some(st1) => Exec(s, st1, p))
  {
    ExecListAppend(ss, [s], st, p);
    assert [s][1..] == [];
  }

  lemma Snoc(ss: seq<Stmt>, k: nat)
    requires k < |ss|
    ensures ss[..k + 1] == ss[..k] + [ss[k]] && ss[..k + 1][..k] == ss[..k]
  {
  }
}
