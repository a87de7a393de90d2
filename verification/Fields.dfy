/** Code for tests on packet fields: the statements that load a field, the single
    block that tests it, and chains of such blocks for longer byte strings. */
module Fields {
  import opened Bpf
  import opened Atoms
  import opened Fragment
  import opened Backpatch
  import opened Language
  import opened Seal

  // ----- loading a field

  /** The absolute address of a field whose header is at a fixed offset. */
  function FieldAddr(env: Env, rel: OffRel, offset: Word): Word {
    match rel
    case OrPacket => offset
    case OrLink => offset
    case OrNet => Wrap(env.offNl + offset)
    case OrNetNosnap => Wrap(env.offNlNosnap + offset)
    case OrTranIpv4 => Wrap(env.offNl + offset)
    case OrTranIpv6 => Wrap(env.offNl + 40 + offset)
  }

  /** Loads a field relative to a header; a transport field needs the IPv4 header
      length in X first. */
  function LoadA(env: Env, rel: OffRel, offset: Word, size: Size): seq<Stmt> {
    if rel.OrTranIpv4? then [Stmt(LdxMsh, env.offNl)] + [Stmt(LdInd(size), Wrap(env.offNl + offset))]
    else [Stmt(LdAbs(size), FieldAddr(env, rel, offset))]
  }

  function Masked(mask: Word): seq<Stmt> {
    if mask == FULL_MASK then [] else [Stmt(AluK(And), mask)]
  }

  /** Runs to a state whose accumulator is `v`, or aborts when there is none. */
  ghost predicate Leaves(r: Option<Store>, v: Option<Word>) {
    match v
    case None => r == None
    case Some(x) => r.Some? && r.value[A] == x
  }

  lemma ExecOne(s: Stmt, st: Store, p: Packet)
    ensures ExecList([s], st, p) == Exec(s, st, p)
  {
    assert [s][1..] == [];
  }

  lemma LoadTranLeaves(env: Env, offset: Word, size: Size, st: Store, p: Packet)
    ensures Leaves(ExecList(LoadA(env, OrTranIpv4, offset, size), st, p), FieldValue(env, OrTranIpv4, offset, size, p))
  {
    var s0, s1 := Stmt(LdxMsh, env.offNl), Stmt(LdInd(size), Wrap(env.offNl + offset));
    ExecListAppend([s0], [s1], st, p);
    ExecOne(s0, st, p);
    match Exec(s0, st, p) {
      case None =>
      case Some(st1) => ExecOne(s1, st1, p);
    }
  }

  lemma FieldAddrIs(env: Env, rel: OffRel, offset: Word)
    ensures FieldAddr(env, rel, offset) == Wrap(Base(env, rel) + offset)
  {
    WrapAdd(env.offNl + 40, offset);
  }

  lemma LoadLeaves(env: Env, rel: OffRel, offset: Word, size: Size, st: Store, p: Packet)
    ensures Leaves(ExecList(LoadA(env, rel, offset, size), st, p), FieldValue(env, rel, offset, size, p))
  {
    if rel.OrTranIpv4? {
      LoadTranLeaves(env, offset, size, st, p);
    } else {
      FieldAddrIs(env, rel, offset);
      ExecOne(Stmt(LdAbs(size), FieldAddr(env, rel, offset)), st, p);
    }
  }

  lemma MaskedLeaves(env: Env, rel: OffRel, offset: Word, size: Size, mask: Word, st: Store, p: Packet)
    ensures Leaves(ExecList(LoadA(env, rel, offset, size) + Masked(mask), st, p),
                   match FieldValue(env, rel, offset, size, p)
                   case None => None
                   case Some(x) => Some(if mask == FULL_MASK then x else BitAnd(x, mask)))
  {
    var ss, tt := LoadA(env, rel, offset, size), Masked(mask);
    LoadLeaves(env, rel, offset, size, st, p);
    ExecListAppend(ss, tt, st, p);
    match ExecList(ss, st, p) {
      case None =>
      case Some(st1) =>
        if mask != FULL_MASK {
          ExecOne(tt[0], st1, p);
        }
    }
  }

  // ----- meanings as functions of the packet

  function FieldSem(env: Env, rel: OffRel, offset: Word, size: Size, c: Cond): Packet -> Outcome {
    p => FieldMeaning(env, rel, offset, size, c, p)
  }

  function BytesSem(env: Env, rel: OffRel, offset: Word, v: seq<Byte>): Packet -> Outcome {
    p => BytesMeaning(env, rel, offset, v, p)
  }

  function LengthSem(jtype: JmpOp, n: Word, negate: bool): Packet -> Outcome {
    p => LengthMeaning(jtype, n, negate, p)
  }

  function FirstFragSem(env: Env): Packet -> Outcome {
    p => FirstFragMeaning(env, p)
  }

  function FilterSem(f: Filter, env: Env): Packet -> Outcome {
    p => Meaning(f, env, p)
  }

  // ----- expressions under construction

  ghost predicate StandsBody(m: Mem, lo: nat, b: nat, P: Pend, sem: Packet -> Outcome) {
    && Pending(m, b, P) && Denotes(P.f, sem)
    && forall a :: a in P.f.nodes ==> lo <= a < |m|
  }

  /** `b` is a pending expression meaning `sem`, made of blocks allocated since `lo`. */
  ghost predicate Stands(m: Mem, lo: nat, b: nat, P: Pend, sem: Packet -> Outcome) {
    forall u {:trigger Opened(u)} :: Opened(u) ==> StandsBody(m, lo, b, P, sem)
  }

  lemma Open(m: Mem, lo: nat, b: nat, P: Pend, sem: Packet -> Outcome)
    requires Stands(m, lo, b, P, sem)
    ensures StandsBody(m, lo, b, P, sem)
  {
    assert Opened(Key);
  }

  /** Two descriptions of the same meaning. */
  ghost predicate Agree(s: Packet -> Outcome, t: Packet -> Outcome) {
    forall p {:trigger t(p)} :: s(p) == t(p)
  }

  lemma StandsEq(m: Mem, lo: nat, b: nat, P: Pend, s: Packet -> Outcome, t: Packet -> Outcome)
    requires Stands(m, lo, b, P, s) && Agree(s, t)
    ensures Stands(m, lo, b, P, t)
  {
    Open(m, lo, b, P, s);
    forall st, p ensures Eval(P.f, P.f.head, st, p).0 == t(p) {
      assert s(p) == t(p);
    }
  }

  /** Blocks below `lo` are as they were. */
  ghost predicate Kept(m: Mem, m': Mem, lo: nat) {
    && lo <= |m| <= |m'|
    && forall a {:trigger m'[a]} :: 0 <= a < lo ==> m'[a] == m[a]
  }

  lemma SameKept(m: Mem, m': Mem, S: set<nat>, lo: nat)
    requires Same(m, m', S) && lo <= |m| && forall a :: a in S ==> lo <= a
    ensures Kept(m, m', lo)
  {
  }

  lemma KeptTrans(m: Mem, m1: Mem, m2: Mem, lo: nat, mid: nat)
    requires Kept(m, m1, lo) && Kept(m1, m2, mid) && lo <= mid
    ensures Kept(m, m2, lo)
  {
    forall a | 0 <= a < lo ensures m2[a] == m[a] {
      assert m1[a] == m[a];
    }
  }

  /** An expression outlives the generation of later ones. */
  lemma StandsKept(m: Mem, m': Mem, lo: nat, b: nat, P: Pend, sem: Packet -> Outcome)
    requires Stands(m, lo, b, P, sem) && Kept(m, m', |m|)
    ensures Stands(m', lo, b, P, sem)
  {
    Open(m, lo, b, P, sem);
    PendingSame(m, m', b, P, {});
  }

  /** Expressions generated one after the other have no block in common. */
  lemma Separate(m: Mem, m': Mem, lo: nat, b0: nat, P0: Pend, s0: Packet -> Outcome, b1: nat, P1: Pend,
                 s1: Packet -> Outcome)
    requires Stands(m, lo, b0, P0, s0) && Stands(m', |m|, b1, P1, s1)
    ensures P0.f.nodes.Keys !! P1.f.nodes.Keys
  {
    Open(m, lo, b0, P0, s0);
    Open(m', |m|, b1, P1, s1);
  }

  lemma StandsLower(m: Mem, lo: nat, mid: nat, b: nat, P: Pend, sem: Packet -> Outcome)
    requires Stands(m, mid, b, P, sem) && lo <= mid
    ensures Stands(m, lo, b, P, sem)
  {
    Open(m, mid, b, P, sem);
  }

  /** The meaning of one block: run the statements, then test. */
  function TestMeaning(stmts: seq<Stmt>, s: Stmt, st: Store, p: Packet): Outcome {
    match ExecList(stmts, st, p)
    case None => Abort
    case Some(st1) => Decide(Holds(s, st1))
  }

  lemma AtomDenotes(b: nat, stmts: seq<Stmt>, s: Stmt, sem: Packet -> Outcome)
    requires TestBlock(stmts, s)
    requires forall st, p :: sem(p) == TestMeaning(stmts, s, st, p)
    ensures Denotes(Atom(b, stmts, s), sem)
  {
    AtomEval(b, stmts, s, seq(18, i => 0), Packet([], 0));
    forall st, p ensures Eval(Atom(b, stmts, s), b, st, p).0 == sem(p) {
      AtomEval(b, stmts, s, st, p);
      assert sem(p) == TestMeaning(stmts, s, st, p);
    }
  }

  lemma LoadBlock(env: Env, rel: OffRel, offset: Word, size: Size)
    ensures
      var ss := LoadA(env, rel, offset, size);
      (forall k {:trigger ss[k]} :: 0 <= k < |ss| ==> Safe(ss[k])) && ClosedList(ss) && DefsOf(ss) >= {A}
  {
    var ss := LoadA(env, rel, offset, size);
    if rel.OrTranIpv4? {
      ClosedSnoc([], ss[0]);
      assert [] + [ss[0]] == [ss[0]];
      ClosedSnoc([ss[0]], ss[1]);
    } else {
      ClosedSnoc([], ss[0]);
      assert [] + [ss[0]] == ss;
    }
  }

  /** One more statement on the accumulator. */
  lemma LoadBlockMore(ss: seq<Stmt>, s0: Stmt)
    requires (forall k {:trigger ss[k]} :: 0 <= k < |ss| ==> Safe(ss[k])) && ClosedList(ss) && DefsOf(ss) >= {A}
    requires Safe(s0) && Uses(s0) <= {A}
    ensures (forall k {:trigger (ss + [s0])[k]} :: 0 <= k < |ss + [s0]| ==> Safe((ss + [s0])[k]))
    ensures ClosedList(ss + [s0]) && DefsOf(ss + [s0]) >= {A}
  {
    ClosedSnoc(ss, s0);
  }

  lemma FieldBlock(env: Env, rel: OffRel, offset: Word, size: Size, mask: Word, jtype: JmpOp, v: Word)
    ensures TestBlock(LoadA(env, rel, offset, size) + Masked(mask), Stmt(JmpK(jtype), v))
  {
    var ss, tt := LoadA(env, rel, offset, size), Masked(mask);
    LoadBlock(env, rel, offset, size);
    if tt == [] {
      assert ss + tt == ss;
    } else {
      assert tt == [tt[0]];
      LoadBlockMore(ss, tt[0]);
    }
  }

  lemma LengthBlock(jtype: JmpOp, n: Word)
    ensures TestBlock([Stmt(LdLen, 0)], Stmt(JmpK(jtype), n))
  {
    ClosedSnoc([], Stmt(LdLen, 0));
    assert [] + [Stmt(LdLen, 0)] == [Stmt(LdLen, 0)];
  }

  /** The block for a field test, before a reversed comparison is negated. */
  lemma FieldTest(env: Env, rel: OffRel, offset: Word, size: Size, c: Cond, st: Store, p: Packet)
    requires !c.reverse
    ensures FieldSem(env, rel, offset, size, c)(p) ==
            TestMeaning(LoadA(env, rel, offset, size) + Masked(c.mask), Stmt(JmpK(c.jtype), c.v), st, p)
  {
    MaskedLeaves(env, rel, offset, size, c.mask, st, p);
  }

  lemma FieldReversed(env: Env, rel: OffRel, offset: Word, size: Size, c: Cond)
    ensures
      var s := FieldSem(env, rel, offset, size, c.(reverse := false));
      Agree(if c.reverse && (c.jtype.Jgt? || c.jtype.Jge?) then NotSem(s) else s, FieldSem(env, rel, offset, size, c))
  {
    var s := FieldSem(env, rel, offset, size, c.(reverse := false));
    var r := if c.reverse && (c.jtype.Jgt? || c.jtype.Jge?) then NotSem(s) else s;
    var t := FieldSem(env, rel, offset, size, c);
    forall p ensures r(p) == t(p) {
      assert s(p) == FieldMeaning(env, rel, offset, size, c.(reverse := false), p);
      assert NotSem(s)(p) == Not3(s(p)) && t(p) == FieldMeaning(env, rel, offset, size, c, p);
    }
  }

  lemma LengthReversed(jtype: JmpOp, n: Word)
    ensures Agree(NotSem(LengthSem(jtype, n, false)), LengthSem(jtype, n, true))
  {
    var s := LengthSem(jtype, n, false);
    forall p ensures NotSem(s)(p) == LengthSem(jtype, n, true)(p) {
      assert s(p) == LengthMeaning(jtype, n, false, p);
    }
  }

  lemma NotNot(s: Packet -> Outcome)
    ensures Agree(NotSem(NotSem(s)), s)
  {
    forall p ensures NotSem(NotSem(s))(p) == s(p) {
      assert NotSem(s)(p) == Not3(s(p));
    }
  }

  // ----- byte strings

  lemma PairInjective(a: Byte, b: Byte, c: Byte, d: Byte)
    ensures Concat(a, b) == Concat(c, d) <==> a == c && b == d
  {
  }

  lemma BigEndianInjective(x: seq<Byte>, i: nat, y: seq<Byte>, j: nat, size: Size)
    requires i + Width(size) <= |x| && j + Width(size) <= |y|
    ensures
      BigEndian(x, i, size) == BigEndian(y, j, size) <==>
      && x[i] == y[j]
      && (!size.ByteSize? ==> x[i + 1] == y[j + 1])
      && (size.WordSize? ==> x[i + 2] == y[j + 2] && x[i + 3] == y[j + 3])
  {
    match size {
      case ByteSize =>
      case HalfSize => PairInjective(x[i], x[i + 1], y[j], y[j + 1]);
      case WordSize =>
        PairInjective(x[i], x[i + 1], y[j], y[j + 1]);
        PairInjective(x[i + 2], x[i + 3], y[j + 2], y[j + 3]);
        WordPairs(Concat(x[i], x[i + 1]), Concat(x[i + 2], x[i + 3]), Concat(y[j], y[j + 1]),
                  Concat(y[j + 2], y[j + 3]));
    }
  }

  lemma WordPairs(a: int, b: int, c: int, d: int)
    requires 0 <= b < 0x1_0000 && 0 <= d < 0x1_0000
    ensures a * 0x1_0000 + b == c * 0x1_0000 + d <==> a == c && b == d
  {
  }
}
