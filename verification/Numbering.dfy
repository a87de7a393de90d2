/** Symbolic execution of one statement: what it does to the value numbers of the atoms,
    and, when asked to alter it, the cheaper statement it becomes. */
module Numbering {
  import opened Bpf
  import opened Atoms
  import opened Folding
  import opened Values

  type Vals = v: seq<nat> | |v| == N_ATOMS witness seq(N_ATOMS, i => 0)

  /** The atoms of `D` hold the words their numbers stand for. */
  ghost predicate Consistent(nodes: seq<VNode>, val: Vals, D: set<nat>, st: Store, p: Packet) {
    forall a {:trigger st[a]} {:trigger val[a]} :: a in D && 0 <= a < N_ATOMS ==> Den(nodes, val[a], p) == Some(st[a])
  }

  ghost predicate Handed(nodes: seq<VNode>, val: Vals) {
    forall a {:trigger val[a]} :: 0 <= a < N_ATOMS ==> val[a] <= |nodes|
  }

  lemma ConsistentGrows(nodes: seq<VNode>, nodes': seq<VNode>, val: Vals, D: set<nat>, st: Store, p: Packet)
    requires Grows(nodes, nodes') && Handed(nodes, val) && Consistent(nodes, val, D, st, p)
    ensures Consistent(nodes', val, D, st, p)
  {
    forall a | a in D && 0 <= a < N_ATOMS ensures Den(nodes', val[a], p) == Some(st[a]) {
      DenGrows(nodes, nodes', val[a], p);
    }
  }

  // ----- one statement

  /** The atoms whose numbers are known. */
  function Known(val: Vals): set<nat> {
    set a | 0 <= a < N_ATOMS && val[a] != 0
  }

  /** The word a number is known to stand for, if it is a constant. */
  function ConstAt(nodes: seq<VNode>, v: nat): Option<Word> {
    if 1 <= v <= |nodes| then Constant(nodes[v - 1]) else None
  }

  /** The second operand, if it is known. */
  function OperandAt(nodes: seq<VNode>, val: Vals, s: Stmt): Option<Word> {
    match s.code
    case AluK(_) => Some(s.k)
    case AluX(_) => ConstAt(nodes, val[X])
    case _ => None
  }

  /** Rewriting the statement means folding two constants. */
  predicate Folds(nodes: seq<VNode>, val: Vals, s: Stmt) {
    && (s.code.AluK? || s.code.AluX?) && !NoEffect(s) && !Clears(s)
    && ConstAt(nodes, val[A]).Some? && OperandAt(nodes, val, s).Some?
  }

  /** Folding, if there is any, agrees with the machine. */
  predicate Agrees(nodes: seq<VNode>, val: Vals, s: Stmt) {
    Folds(nodes, val, s) ==> FoldAgrees(s.code.op, ConstAt(nodes, val[A]).value, OperandAt(nodes, val, s).value)
  }

  /** A known constant is divided by the known constant 0. */
  predicate DividesByZero(nodes: seq<VNode>, val: Vals, s: Stmt) {
    Folds(nodes, val, s) && s.code.op.Div? && OperandAt(nodes, val, s) == Some(0)
  }

  /** The statement divides by something known to be 0. */
  predicate ZeroDivisor(nodes: seq<VNode>, val: Vals, s: Stmt) {
    (s.code.AluK? || s.code.AluX?) && s.code.op.Div? && OperandAt(nodes, val, s) == Some(0)
  }

  lemma ConstGrows(n0: seq<VNode>, n1: seq<VNode>, val: Vals, s: Stmt)
    requires Grows(n0, n1) && Handed(n0, val)
    ensures forall a {:trigger val[a]} :: 0 <= a < N_ATOMS ==> ConstAt(n1, val[a]) == ConstAt(n0, val[a])
    ensures Agrees(n1, val, s) == Agrees(n0, val, s) && DividesByZero(n1, val, s) == DividesByZero(n0, val, s)
    ensures ZeroDivisor(n1, val, s) == ZeroDivisor(n0, val, s)
  {
    forall a | 0 <= a < N_ATOMS ensures ConstAt(n1, val[a]) == ConstAt(n0, val[a]) {
      if val[a] > 0 {
        assert n1[val[a] - 1] == n0[val[a] - 1];
      }
    }
  }

  /** The state a statement is run in, and the atoms whose numbers may be relied on. */
  datatype Point = Point(D: set<nat>, st: Store, p: Packet)

  /** Before the statement the atoms of `D` hold what their numbers say; it reads no
      others; it does not abort; and when it may be altered, all known numbers are to be
      relied on and folding their constants, if it comes to that, agrees. */
  ghost predicate Before(nodes: seq<VNode>, val: Vals, s: Stmt, alter: bool, at: Point) {
    && Consistent(nodes, val, at.D, at.st, at.p) && Uses(s) <= at.D
    && (alter ==> Known(val) <= at.D && Agrees(nodes, val, s))
    && Exec(s, at.st, at.p).Some?
  }

  /** Then the altered statement reaches the same state, in which the atom defined holds
      what its new number says. */
  ghost predicate After(nodes: seq<VNode>, val: Vals, s: Stmt, s': Stmt, at: Point)
    requires Exec(s, at.st, at.p).Some?
  {
    && Exec(s', at.st, at.p) == Exec(s, at.st, at.p)
    && Consistent(nodes, val, at.D + DefSet(s), Exec(s, at.st, at.p).value, at.p)
  }

  ghost predicate SoundAt(n0: seq<VNode>, v0: Vals, s0: Stmt, alter: bool, n1: seq<VNode>, v1: Vals, s1: Stmt,
                          at: Point) {
    Before(n0, v0, s0, alter, at) ==> After(n1, v1, s0, s1, at)
  }

  ghost predicate Sound(n0: seq<VNode>, v0: Vals, s0: Stmt, alter: bool, n1: seq<VNode>, v1: Vals, s1: Stmt) {
    forall at {:trigger SoundAt(n0, v0, s0, alter, n1, v1, s1, at)} :: SoundAt(n0, v0, s0, alter, n1, v1, s1, at)
  }

  /** A store of number `v` into atom `a`, dropped on request if that is the number
      already there. */
  function StoredStmt(s: Stmt, val: Vals, a: nat, v: nat, drop: bool): Stmt
    requires a < N_ATOMS
  {
    if drop && val[a] == v then s.(code := Nop) else s
  }

  /** The word the statement puts in its atom is the one number `v` stands for, and the
      rewritten statement puts it there too. */
  ghost predicate Names(n1: seq<VNode>, s0: Stmt, s1: Stmt, a: nat, v: nat, at: Point) {
    && a < N_ATOMS && v > 0 && DefSet(s0) == {a}
    && Exec(s0, at.st, at.p).Some? && Exec(s1, at.st, at.p) == Exec(s0, at.st, at.p)
    && Den(n1, v, at.p) == Some(Exec(s0, at.st, at.p).value[a])
  }

  lemma StoreSound(n0: seq<VNode>, v0: Vals, s0: Stmt, alter: bool, n1: seq<VNode>, s1: Stmt, a: nat, v: nat,
                   drop: bool, at: Point)
    requires a < N_ATOMS && (drop ==> alter) && Grows(n0, n1) && Handed(n0, v0)
    requires Before(n0, v0, s0, alter, at) && Names(n1, s0, s1, a, v, at)
    ensures After(n1, v0[a := v], s0, StoredStmt(s1, v0, a, v, drop), at)
  {
    var st1 := Exec(s0, at.st, at.p).value;
    ConsistentGrows(n0, n1, v0, at.D, at.st, at.p);
    forall b | b in at.D + DefSet(s0) && 0 <= b < N_ATOMS ensures Den(n1, v0[a := v][b], at.p) == Some(st1[b]) {
      if b != a {
        OnlyDefines(s0, at.st, at.p, b);
      }
    }
    if drop && v0[a] == v {
      assert a in Known(v0);
      assert st1[a] == at.st[a];
      forall b | 0 <= b < N_ATOMS ensures st1[b] == at.st[b] {
        if b != a {
          OnlyDefines(s0, at.st, at.p, b);
        }
      }
      assert st1 == at.st;
    }
  }

  /** The statement reads no atom whose number is unknown. */
  ghost predicate ReadsKnown(val: Vals, s: Stmt) {
    forall a {:trigger val[a]} :: a in Uses(s) && 0 <= a < N_ATOMS ==> val[a] > 0
  }

  predicate IsNode(nodes: seq<VNode>, v: int, n: VNode) {
    1 <= v <= |nodes| && nodes[v - 1] == n
  }

  /** An operation on number `v` and the constant `c`. */
  predicate IsOperation(nodes: seq<VNode>, w: int, code: Code, v: nat, c: Word) {
    && 1 <= w <= |nodes| && nodes[w - 1].code == code && nodes[w - 1].v0 == v
    && IsNode(nodes, nodes[w - 1].v1, K(c))
  }

  /** The constant two constants fold to. */
  predicate IsFolded(nodes: seq<VNode>, w: nat, op: AluOp, a: Word, b: Word) {
    ConstAt(nodes, w).Some? && (FoldDefined(op, a, b) ==> ConstAt(nodes, w) == Some(Folded(op, a, b)))
  }

  /** Which number the atom written gets: that of the expression the statement computes,
      or, when it may be altered, of the simpler one it becomes. */
  predicate Named(nodes: seq<VNode>, val: Vals, s: Stmt, alter: bool, val': Vals) {
    var a, x := if alter then ConstAt(nodes, val[A]) else None, if alter then ConstAt(nodes, val[X]) else None;
    match s.code
    case LdLen => IsNode(nodes, val'[A], VNode(LdLen, 0, 0))
    case LdImm => IsNode(nodes, val'[A], K(s.k))
    case LdxImm => IsNode(nodes, val'[X], K(s.k))
    case LdAbs(_) => IsNode(nodes, val'[A], VNode(s.code, s.k, 0))
    case LdxMsh => IsNode(nodes, val'[X], VNode(s.code, s.k, 0))
    case LdInd(size) =>
      IsNode(nodes, val'[A], if x.Some? then VNode(LdAbs(size), Wrap(s.k + x.value), 0) else VNode(s.code, s.k, val[X]))
    case Neg => IsNode(nodes, val'[A], if a.Some? then K(Wrap(WORD_LIMIT - a.value)) else VNode(Neg, val[A], 0))
    case AluK(op) =>
      if alter && NoEffect(s) then val'[A] == val[A]
      else if alter && Clears(s) then IsNode(nodes, val'[A], K(0))
      else if a.Some? then IsFolded(nodes, val'[A], op, a.value, s.k)
      else IsOperation(nodes, val'[A], s.code, val[A], s.k)
    case AluX(op) =>
      if x.Some? then
        (if a.Some? then IsFolded(nodes, val'[A], op, a.value, x.value)
         else IsOperation(nodes, val'[A], AluK(op), val[A], x.value))
      else if a == Some(0) && !op.Sub? then
        (if op.Add? || op.Or? then val'[A] == val[X] else IsNode(nodes, val'[A], K(0)))
      else IsNode(nodes, val'[A], VNode(s.code, val[A], val[X]))
    case _ => Copies(s) && CopyFrom(s) < N_ATOMS && CopyTo(s) < N_ATOMS ==> val'[CopyTo(s)] == val[CopyFrom(s)]
  }

  lemma NamedGrows(n1: seq<VNode>, n2: seq<VNode>, val: Vals, s: Stmt, alter: bool, val': Vals)
    requires Named(n1, val, s, alter, val') && Grows(n1, n2) && Handed(n1, val) && Handed(n1, val')
    ensures Named(n2, val, s, alter, val')
  {
    ConstGrows(n1, n2, val, s);
    ConstGrows(n1, n2, val', s);
    forall v: int, n | IsNode(n1, v, n) ensures IsNode(n2, v, n) {
      assert n2[v - 1] == n1[v - 1];
    }
    if s.code.AluK? || s.code.AluX? {
      assert 1 <= val'[A] ==> n2[val'[A] - 1] == n1[val'[A] - 1];
    }
  }

  /** Everything a caller knows once a statement has been executed symbolically. */
  ghost predicate Numbered(n0: seq<VNode>, v0: Vals, s0: Stmt, alter: bool, n1: seq<VNode>, v1: Vals, s1: Stmt) {
    && Grows(n0, n1) && |n1| <= |n0| + (if s0.code.Nop? then 0 else 2) && Handed(n1, v1)
    && (forall a {:trigger v1[a]} :: 0 <= a < N_ATOMS ==>
          if a in DefSet(s0) then ReadsKnown(v0, s0) ==> v1[a] > 0 else v1[a] == v0[a])
    && (!alter ==> s1 == s0)
    && Plain(s1) && Named(n1, v0, s0, alter, v1)
    && Sound(n0, v0, s0, alter, n1, v1, s1)
  }

  lemma StoreNumbered(n0: seq<VNode>, v0: Vals, s0: Stmt, alter: bool, n1: seq<VNode>, s1: Stmt, a: nat, v: nat,
                      drop: bool)
    requires drop ==> alter
    requires a < N_ATOMS && Grows(n0, n1) && |n1| <= |n0| + 2 && Handed(n0, v0) && v <= |n1| && DefSet(s0) == {a}
    requires ReadsKnown(v0, s0) ==> v > 0
    requires !alter ==> s1 == s0
    requires Plain(s1) && Named(n1, v0, s0, alter, v0[a := v])
    requires forall at {:trigger Names(n1, s0, s1, a, v, at)} ::
      Before(n0, v0, s0, alter, at) ==> Names(n1, s0, s1, a, v, at)
    ensures Numbered(n0, v0, s0, alter, n1, v0[a := v], StoredStmt(s1, v0, a, v, drop))
  {
    var v1, s2 := v0[a := v], StoredStmt(s1, v0, a, v, drop);
    forall at ensures SoundAt(n0, v0, s0, alter, n1, v1, s2, at) {
      if Before(n0, v0, s0, alter, at) {
        assert Names(n1, s0, s1, a, v, at);
        StoreSound(n0, v0, s0, alter, n1, s1, a, v, drop, at);
      }
    }
  }

  lemma ConstDen(t: ValTable, v: nat, p: Packet)
    requires t.Valid() && v <= |t.nodes| && t.vmap[v].Some?
    ensures Den(t.nodes, v, p) == t.vmap[v]
  {
    assert v >= 1 && Constant(t.nodes[v - 1]) == t.vmap[v];
  }

  lemma UsedDen(nodes: seq<VNode>, val: Vals, s: Stmt, alter: bool, at: Point, a: nat)
    requires Before(nodes, val, s, alter, at) && a in Uses(s) && a < N_ATOMS
    ensures Den(nodes, val[a], at.p) == Some(at.st[a]) && val[a] > 0
  {
    assert a in at.D;
    assert at.st[a] == at.st[a];
  }

  /** There is room in the tables for what a statement may need. */
  ghost predicate Readable(t: ValTable, s: Stmt, val: Vals)
    reads t
  {
    t.Valid() && t.curval + 2 < t.maxval && Handed(t.nodes, val) && Plain(s)
  }

  /** What rewriting achieves: a store of the number already there is deleted; a load at a
      known address or from a register of known content is made direct; arithmetic on
      known operands is done now. A division by the constant 0 is left only where the
      divisor is known to be 0. */
  predicate Simplified(nodes: seq<VNode>, val: Vals, s: Stmt, s': Stmt, val': Vals)
  {
    && (ZeroDivision(s'.code, s'.k) <==> ZeroDivisor(nodes, val, s))
    && (s'.code.Nop? && A in DefSet(s) ==> val'[A] == val[A])
    && (s'.code.AluX? ==> s' == s)
    && (s'.code.AluK? ==> s' == s || (s.code.AluX? && ConstAt(nodes, val[X]).Some?))
    && match s.code
    case LdInd(size) =>
      && (val'[A] == val[A] ==> s'.code.Nop?)
      && (ConstAt(nodes, val[X]).Some? ==>
        s'.code.Nop? || s' == Stmt(LdAbs(size), Wrap(s.k + ConstAt(nodes, val[X]).value)))
    case LdMem =>
      && (val'[A] == val[A] ==> s'.code.Nop?)
      && (s.k < N_ATOMS && ConstAt(nodes, val[s.k]).Some? ==>
        s'.code.Nop? || s' == Stmt(LdImm, ConstAt(nodes, val[s.k]).value))
    case LdxMem =>
      && (val'[X] == val[X] ==> s'.code.Nop?)
      && (s.k < N_ATOMS && ConstAt(nodes, val[s.k]).Some? ==>
        s'.code.Nop? || s' == Stmt(LdxImm, ConstAt(nodes, val[s.k]).value))
    case Neg => ConstAt(nodes, val[A]).Some? ==> s'.code.LdImm?
    case AluK(_) => (NoEffect(s) ==> s'.code.Nop?) && (Clears(s) ==> s'.code.LdImm?) &&
      (ConstAt(nodes, val[A]).Some? ==> s'.code.Nop? || s'.code.LdImm?)
    case AluX(op) =>
      && (ConstAt(nodes, val[X]).Some? && ConstAt(nodes, val[A]).Some? ==> s'.code.LdImm?)
      && (ConstAt(nodes, val[X]).Some? && ConstAt(nodes, val[A]) == None ==>
        s' == Stmt(AluK(op), ConstAt(nodes, val[X]).value))
      && (ConstAt(nodes, val[A]) == Some(0) && ConstAt(nodes, val[X]) == None && !op.Sub? ==>
            !s'.code.AluX? && (val'[A] == val[A] ==> s'.code.Nop?))
    case Nop => s' == s
    case _ => forall a :: a in DefSet(s) && a < N_ATOMS ==> (val'[a] == val[a] ==> s'.code.Nop?)
  }

  method OptAbs(t: ValTable, s: Stmt, val: Vals, alter: bool) returns (s': Stmt, val': Vals)
    requires s.code.LdAbs? || s.code.LdLen? || s.code.LdImm? || s.code.LdxImm? || s.code.LdxMsh?
    requires Readable(t, s, val)
    modifies t
    ensures t.Valid() && Numbered(old(t.nodes), val, s, alter, t.nodes, val', s')
    ensures alter ==> Simplified(old(t.nodes), val, s, s', val')
  {
    var n := match s.code
      case LdLen => VNode(LdLen, 0, 0)
      case LdImm => K(s.k)
      case LdxImm => K(s.k)
      case _ => VNode(s.code, s.k, 0);
    var a := if s.code.LdxImm? || s.code.LdxMsh? then X else A;
    var v := t.F(n);
    val', s' := val[a := v], StoredStmt(s, val, a, v, alter);
    forall at | Before(old(t.nodes), val, s, alter, at) ensures Names(t.nodes, s, s, a, v, at) {
    }
    StoreNumbered(old(t.nodes), val, s, alter, t.nodes, s, a, v, alter);
  }

  /** A load at a known offset from X becomes an absolute one. */
  method OptInd(t: ValTable, s: Stmt, val: Vals, alter: bool) returns (s': Stmt, val': Vals)
    requires s.code.LdInd? && Readable(t, s, val)
    modifies t
    ensures t.Valid() && Numbered(old(t.nodes), val, s, alter, t.nodes, val', s')
    ensures alter ==> Simplified(old(t.nodes), val, s, s', val')
  {
    var v, s1;
    if alter && t.vmap[val[X]].Some? {
      s1, v := DirectLoad(t, s, val);
    } else {
      s1, v := OneOperand(t, s, val, X, VNode(s.code, s.k, val[X]), alter);
    }
    val', s' := val[A := v], StoredStmt(s1, val, A, v, alter);
    OneNamed(old(t.nodes), t.nodes, val, s, alter, v);
    StoreNumbered(old(t.nodes), val, s, alter, t.nodes, s1, A, v, alter);
  }

  /** What `OptInd` and `OptNeg` number is what they should. */
  lemma OneNamed(n0: seq<VNode>, n1: seq<VNode>, val: Vals, s: Stmt, alter: bool, v: nat)
    requires Grows(n0, n1) && Handed(n0, val) && (s.code.LdInd? || s.code.Neg?)
    requires
      var c := ConstAt(n0, if s.code.Neg? then val[A] else val[X]);
      IsNode(n1, v,
        if s.code.Neg? then (if alter && c.Some? then K(Wrap(WORD_LIMIT - c.value)) else VNode(Neg, val[A], 0))
        else if alter && c.Some? then VNode(LdAbs(s.code.size), Wrap(s.k + c.value), 0) else VNode(s.code, s.k, val[X]))
    ensures Named(n1, val, s, alter, val[A := v])
  {
    ConstGrows(n0, n1, val, s);
  }

  /** A statement that depends on one atom of unknown content is numbered as it is. */
  method OneOperand(t: ValTable, s: Stmt, val: Vals, a: nat, n: VNode, alter: bool) returns (s1: Stmt, v: nat)
    requires Readable(t, s, val)
    requires (s.code.LdInd? && a == X && n == VNode(s.code, s.k, val[X])) ||
      (s.code.Neg? && a == A && n == VNode(Neg, val[A], 0))
    modifies t
    ensures t.Valid() && Grows(old(t.nodes), t.nodes) && |t.nodes| <= |old(t.nodes)| + 1
    ensures s1 == s && IsNode(t.nodes, v, n)
    ensures forall at {:trigger Names(t.nodes, s, s1, A, v, at)} ::
      Before(old(t.nodes), val, s, alter, at) ==> Names(t.nodes, s, s1, A, v, at)
  {
    ghost var n0 := t.nodes;
    assert a in Uses(s);
    s1 := s;
    v := t.F(n);
    forall at | Before(n0, val, s, alter, at) ensures Names(t.nodes, s, s, A, v, at) {
      UsedDen(n0, val, s, alter, at, a);
      DenGrows(n0, t.nodes, val[a], at.p);
    }
  }

  method DirectLoad(t: ValTable, s: Stmt, val: Vals) returns (s1: Stmt, v: nat)
    requires s.code.LdInd? && Readable(t, s, val) && t.vmap[val[X]].Some?
    modifies t
    ensures t.Valid() && Grows(old(t.nodes), t.nodes) && |t.nodes| <= |old(t.nodes)| + 1 && 1 <= v <= |t.nodes|
    ensures s1 == Stmt(LdAbs(s.code.size), Wrap(s.k + old(t.vmap)[val[X]].value)) &&
      IsNode(t.nodes, v, VNode(s1.code, s1.k, 0))
    ensures forall at {:trigger Names(t.nodes, s, s1, A, v, at)} ::
      Before(old(t.nodes), val, s, true, at) ==> Names(t.nodes, s, s1, A, v, at)
  {
    ghost var c, n0 := t.vmap[val[X]].value, t.nodes;
    assert X in Uses(s);
    s1 := Stmt(LdAbs(s.code.size), Wrap(s.k + t.vmap[val[X]].value));
    forall at | Before(n0, val, s, true, at) ensures at.st[X] == c {
      ConstDen(t, val[X], at.p);
      UsedDen(n0, val, s, true, at, X);
    }
    v := t.F(VNode(s1.code, s1.k, 0));
    forall at | Before(n0, val, s, true, at) ensures Names(t.nodes, s, s1, A, v, at) {
      assert Exec(s1, at.st, at.p) == Exec(s, at.st, at.p);
    }
  }

  method OptNeg(t: ValTable, s: Stmt, val: Vals, alter: bool) returns (s': Stmt, val': Vals)
    requires s.code.Neg? && Readable(t, s, val)
    modifies t
    ensures t.Valid() && Numbered(old(t.nodes), val, s, alter, t.nodes, val', s')
    ensures alter ==> Simplified(old(t.nodes), val, s, s', val')
  {
    var v;
    if alter && t.vmap[val[A]].Some? {
      s', v := NegConstant(t, s, val);
    } else {
      s', v := OneOperand(t, s, val, A, VNode(Neg, val[A], 0), alter);
    }
    val' := val[A := v];
    OneNamed(old(t.nodes), t.nodes, val, s, alter, v);
    StoreNumbered(old(t.nodes), val, s, alter, t.nodes, s', A, v, false);
  }

  method NegConstant(t: ValTable, s: Stmt, val: Vals) returns (s1: Stmt, v: nat)
    requires s.code.Neg? && Readable(t, s, val) && t.vmap[val[A]].Some?
    modifies t
    ensures t.Valid() && Grows(old(t.nodes), t.nodes) && |t.nodes| <= |old(t.nodes)| + 1
    ensures s1 == Stmt(LdImm, Wrap(WORD_LIMIT - old(t.vmap)[val[A]].value)) && IsNode(t.nodes, v, K(s1.k))
    ensures forall at {:trigger Names(t.nodes, s, s1, A, v, at)} ::
      Before(old(t.nodes), val, s, true, at) ==> Names(t.nodes, s, s1, A, v, at)
  {
    ghost var c, n0 := t.vmap[val[A]].value, t.nodes;
    assert A in Uses(s);
    s1 := Stmt(LdImm, Wrap(WORD_LIMIT - t.vmap[val[A]].value));
    forall at | Before(n0, val, s, true, at) ensures at.st[A] == c {
      ConstDen(t, val[A], at.p);
      UsedDen(n0, val, s, true, at, A);
    }
    v := t.F(K(s1.k));
    forall at | Before(n0, val, s, true, at) ensures Names(t.nodes, s, s1, A, v, at) {
      assert Exec(s1, at.st, at.p) == Exec(s, at.st, at.p);
    }
  }

  // ----- arithmetic with a constant

  lemma NoEffectExec(s: Stmt, st: Store, p: Packet)
    requires NoEffect(s)
    ensures Exec(s, st, p) == Some(st)
  {
    assert Pow2(0) == 1;
    assert st[A := st[A]] == st;
  }

  lemma ClearsExec(s: Stmt, st: Store, p: Packet)
    requires Clears(s)
    ensures Exec(s, st, p) == Some(st[A := 0])
  {
  }

  /** Folds two constants; a division by zero is reported instead. */
  method FoldOp(op: AluOp, a: Word, b: Word) returns (ok: bool, k: Word)
    ensures ok <==> !(op.Div? && b == 0)
    ensures ok && FoldAgrees(op, a, b) ==> Alu(op, a, b) == Some(k)
    ensures ok && FoldDefined(op, a, b) ==> k == Folded(op, a, b)
  {
    if op.Div? && b == 0 {
      return false, 0;
    }
    ok := true;
    if FoldDefined(op, a, b) {
      FoldExact(op, a, b);
      k := Folded(op, a, b);
    } else {
      k := *;
    }
  }

  lemma NoEffectNumbered(t: ValTable, s: Stmt, val: Vals)
    requires NoEffect(s) && Readable(t, s, val)
    ensures Numbered(t.nodes, val, s, true, t.nodes, val, s.(code := Nop))
  {
    var s1, n := s.(code := Nop), t.nodes;
    assert A in Uses(s);
    forall at | Before(n, val, s, true, at) ensures Names(n, s, s1, A, val[A], at) {
      UsedDen(n, val, s, true, at, A);
      NoEffectExec(s, at.st, at.p);
    }
    assert val[A := val[A]] == val;
    StoreNumbered(n, val, s, true, n, s1, A, val[A], false);
  }

  /** Altered, the statement makes the accumulator the constant `k`. */
  predicate ConstResult(nodes: seq<VNode>, val: Vals, s: Stmt, k: Word) {
    var a, x := ConstAt(nodes, val[A]), ConstAt(nodes, val[X]);
    match s.code
    case AluK(op) =>
      !NoEffect(s) &&
      (if Clears(s) then k == 0
       else a.Some? && (FoldDefined(op, a.value, s.k) ==> k == Folded(op, a.value, s.k)))
    case AluX(op) =>
      if x.Some? then a.Some? && (FoldDefined(op, a.value, x.value) ==> k == Folded(op, a.value, x.value))
      else a == Some(0) && !op.Sub? && !op.Add? && !op.Or? && k == 0
    case _ => false
  }

  lemma ConstNamed(n0: seq<VNode>, n1: seq<VNode>, val: Vals, s: Stmt, k: Word, v: nat)
    requires ConstResult(n0, val, s, k) && Grows(n0, n1) && Handed(n0, val) && IsNode(n1, v, K(k))
    ensures Named(n1, val, s, true, val[A := v])
  {
    ConstGrows(n0, n1, val, s);
  }

  /** The statement becomes a load of the constant `k`. */
  method LoadConstant(t: ValTable, s: Stmt, val: Vals, k: Word, drop: bool, ghost n0: seq<VNode>)
    returns (s': Stmt, val': Vals)
    requires t.Valid() && t.curval + 1 < t.maxval && Grows(n0, t.nodes) && |t.nodes| <= |n0| + 1 && Handed(n0, val)
    requires DefSet(s) == {A} && ConstResult(n0, val, s, k)
    requires forall at {:trigger Before(n0, val, s, true, at)} ::
      Before(n0, val, s, true, at) ==> Exec(s, at.st, at.p) == Some(at.st[A := k])
    modifies t
    ensures t.Valid() && Numbered(n0, val, s, true, t.nodes, val', s') && Grows(old(t.nodes), t.nodes)
    ensures s'.code.LdImm? || (drop && s'.code.Nop? && val'[A] == val[A])
    ensures drop && val'[A] == val[A] ==> s'.code.Nop?
  {
    var s1 := Stmt(LdImm, k);
    ghost var n1 := t.nodes;
    var v := t.F(K(k));
    forall at | Before(n0, val, s, true, at) ensures Names(t.nodes, s, s1, A, v, at) {
      assert Exec(s1, at.st, at.p) == Exec(s, at.st, at.p);
    }
    GrowsTrans(n0, n1, t.nodes);
    ConstNamed(n0, t.nodes, val, s, k, v);
    s', val' := StoredStmt(s1, val, A, v, drop), val[A := v];
    StoreNumbered(n0, val, s, true, t.nodes, s1, A, v, drop);
  }

  lemma GrowsTrans(a: seq<VNode>, b: seq<VNode>, c: seq<VNode>)
    requires Grows(a, b) && Grows(b, c)
    ensures Grows(a, c)
  {
    forall i | 0 <= i < |a| ensures c[i] == a[i] {
      assert c[i] == b[i];
    }
  }

  function Operand(s: Stmt, st: Store): Word {
    if s.code.AluX? then st[X] else s.k
  }

  /** Both operands are known constants; only a division by zero cannot be folded. */
  method OptFold(t: ValTable, s: Stmt, val: Vals, op: AluOp, a: Word, b: Word, ghost n0: seq<VNode>)
    returns (ok: bool, s': Stmt, val': Vals)
    requires t.Valid() && t.curval + 1 < t.maxval && Grows(n0, t.nodes) && |t.nodes| <= |n0| + 1 && Handed(n0, val)
    requires s.code == AluK(op) || s.code == AluX(op)
    requires Folds(n0, val, s) && ConstAt(n0, val[A]) == Some(a) && OperandAt(n0, val, s) == Some(b)
    requires forall at {:trigger Before(n0, val, s, true, at)} ::
      Before(n0, val, s, true, at) ==> at.st[A] == a && Operand(s, at.st) == b
    modifies t
    ensures t.Valid() && Grows(old(t.nodes), t.nodes)
    ensures !ok <==> DividesByZero(n0, val, s)
    ensures ok ==> Numbered(n0, val, s, true, t.nodes, val', s') && s'.code.LdImm?
  {
    var k;
    ok, k := FoldOp(op, a, b);
    s', val' := s, val;
    if ok {
      forall at | Before(n0, val, s, true, at) ensures Exec(s, at.st, at.p) == Some(at.st[A := k]) {
        assert at.st[A] == a && Operand(s, at.st) == b && FoldAgrees(op, a, b);
      }
      s', val' := LoadConstant(t, s, val, k, false, n0);
    }
  }

  /** Nothing better can be done than to number the operation; `v` is its second operand. */
  predicate OpResult(nodes: seq<VNode>, val: Vals, s: Stmt, alter: bool, s1: Stmt, v: nat) {
    var a, x := if alter then ConstAt(nodes, val[A]) else None, if alter then ConstAt(nodes, val[X]) else None;
    match s.code
    case AluK(_) => s1 == s && IsNode(nodes, v, K(s.k)) && a == None && (alter ==> !NoEffect(s) && !Clears(s))
    case AluX(op) =>
      if x.Some? then a == None && s1.code == AluK(op) && IsNode(nodes, v, K(x.value))
      else s1 == s && v == val[X] && (a == Some(0) ==> op.Sub?)
    case _ => false
  }

  lemma OpNamed(n1: seq<VNode>, n2: seq<VNode>, val: Vals, s: Stmt, alter: bool, s1: Stmt, v: nat, r: nat)
    requires OpResult(n1, val, s, alter, s1, v) && Grows(n1, n2) && Handed(n1, val) &&
      IsNode(n2, r, VNode(s1.code, val[A], v))
    ensures Named(n2, val, s, alter, val[A := r])
  {
    ConstGrows(n1, n2, val, s);
    if 1 <= v <= |n1| {
      assert n2[v - 1] == n1[v - 1];
    }
  }

  /** The result gets the number of the operation applied to its operands' numbers. */
  method OptAlu(t: ValTable, s: Stmt, s1: Stmt, val: Vals, alter: bool, v: nat, ghost n0: seq<VNode>)
    returns (val': Vals)
    requires t.Valid() && t.curval + 1 < t.maxval && Grows(n0, t.nodes) && |t.nodes| <= |n0| + 1 && Handed(n0, val)
    requires s.code.AluK? || s.code.AluX?
    requires (s1.code == s.code || s1.code == AluK(s.code.op)) && v <= |t.nodes|
    requires (!alter ==> s1 == s) && Plain(s1) && OpResult(t.nodes, val, s, alter, s1, v)
    requires forall at {:trigger Before(n0, val, s, alter, at)} :: Before(n0, val, s, alter, at) ==>
      && Den(n0, val[A], at.p) == Some(at.st[A]) && Den(t.nodes, v, at.p) == Some(Operand(s, at.st))
      && Operand(s1, at.st) == Operand(s, at.st)
    modifies t
    ensures t.Valid() && Numbered(n0, val, s, alter, t.nodes, val', s1)
  {
    ghost var n1 := t.nodes;
    var r := t.F(VNode(s1.code, val[A], v));
    forall at | Before(n0, val, s, alter, at) ensures Names(t.nodes, s, s1, A, r, at) {
      DenGrows(n1, t.nodes, v, at.p);
      DenGrows(n0, n1, val[A], at.p);
      DenGrows(n1, t.nodes, val[A], at.p);
    }
    GrowsTrans(n0, n1, t.nodes);
    OpNamed(n1, t.nodes, val, s, alter, s1, v, r);
    val' := val[A := r];
    StoreNumbered(n0, val, s, alter, t.nodes, s1, A, r, false);
  }

  /** The accumulator is a known constant. */
  method OptAluConstA(t: ValTable, s: Stmt, val: Vals) returns (ok: bool, s': Stmt, val': Vals)
    requires s.code.AluK? && Readable(t, s, val) && t.vmap[val[A]].Some? && !NoEffect(s) && !Clears(s)
    modifies t
    ensures t.Valid() && Grows(old(t.nodes), t.nodes)
    ensures !ok <==> DividesByZero(old(t.nodes), val, s)
    ensures ok ==> Numbered(old(t.nodes), val, s, true, t.nodes, val', s') && s'.code.LdImm?
  {
    ghost var n0 := t.nodes;
    var a := t.vmap[val[A]].value;
    assert A in Uses(s);
    forall at | Before(n0, val, s, true, at) ensures at.st[A] == a && Operand(s, at.st) == s.k {
      ConstDen(t, val[A], at.p);
      UsedDen(n0, val, s, true, at, A);
    }
    var v := t.F(K(s.k));
    ok, s', val' := OptFold(t, s, val, s.code.op, a, s.k, n0);
  }

  /** There is nothing to be gained. */
  method OptAluKept(t: ValTable, s: Stmt, val: Vals, alter: bool) returns (val': Vals)
    requires s.code.AluK? && Readable(t, s, val)
    requires alter ==> t.vmap[val[A]] == None && !NoEffect(s) && !Clears(s)
    modifies t
    ensures t.Valid() && Grows(old(t.nodes), t.nodes)
    ensures Numbered(old(t.nodes), val, s, alter, t.nodes, val', s)
  {
    ghost var n0 := t.nodes;
    assert A in Uses(s);
    var v := t.F(K(s.k));
    forall at | Before(n0, val, s, alter, at)
      ensures Den(n0, val[A], at.p) == Some(at.st[A]) && Den(t.nodes, v, at.p) == Some(Operand(s, at.st)) {
      UsedDen(n0, val, s, alter, at, A);
    }
    val' := OptAlu(t, s, s, val, alter, v, n0);
  }

  method OptAluK(t: ValTable, s: Stmt, val: Vals, alter: bool) returns (ok: bool, s': Stmt, val': Vals)
    requires s.code.AluK? && Readable(t, s, val)
    modifies t
    ensures t.Valid() && Grows(old(t.nodes), t.nodes)
    ensures !ok <==> alter && DividesByZero(old(t.nodes), val, s)
    ensures ok ==> Numbered(old(t.nodes), val, s, alter, t.nodes, val', s')
    ensures ok && alter ==> Simplified(old(t.nodes), val, s, s', val')
  {
    ok := true;
    if alter && NoEffect(s) {
      assert A in Uses(s);
      NoEffectNumbered(t, s, val);
      s', val' := s.(code := Nop), val;
    } else if alter && Clears(s) {
      ghost var n0 := t.nodes;
      forall at | Before(n0, val, s, true, at) ensures Exec(s, at.st, at.p) == Some(at.st[A := 0]) {
        ClearsExec(s, at.st, at.p);
      }
      s', val' := LoadConstant(t, s, val, 0, false, n0);
    } else if alter && t.vmap[val[A]].Some? {
      ok, s', val' := OptAluConstA(t, s, val);
    } else {
      s' := s;
      val' := OptAluKept(t, s, val, alter);
    }
  }

  // ----- arithmetic with X

  /** X is a known constant, which takes its place in the statement. */
  method OptAluConstX(t: ValTable, s: Stmt, val: Vals, b: Word) returns (ok: bool, s': Stmt, val': Vals)
    requires s.code.AluX? && Readable(t, s, val) && t.vmap[val[X]] == Some(b)
    modifies t
    ensures t.Valid() && (ok ==> Numbered(old(t.nodes), val, s, true, t.nodes, val', s')) &&
      Grows(old(t.nodes), t.nodes)
    ensures !ok <==> DividesByZero(old(t.nodes), val, s)
    ensures ok ==> if ConstAt(old(t.nodes), val[A]).Some? then s'.code.LdImm? else s' == Stmt(AluK(s.code.op), b)
  {
    ghost var n0 := t.nodes;
    assert A in Uses(s) && X in Uses(s);
    forall at | Before(n0, val, s, true, at) ensures at.st[X] == b && Den(n0, val[A], at.p) == Some(at.st[A]) {
      ConstDen(t, val[X], at.p);
      UsedDen(n0, val, s, true, at, X);
      UsedDen(n0, val, s, true, at, A);
    }
    if t.vmap[val[A]].Some? {
      var a := t.vmap[val[A]].value;
      forall at | Before(n0, val, s, true, at) ensures at.st[A] == a {
        ConstDen(t, val[A], at.p);
      }
      ok, s', val' := OptFold(t, s, val, s.code.op, a, b, n0);
    } else {
      ok, s' := true, Stmt(AluK(s.code.op), b);
      var v := t.F(K(b));
      val' := OptAlu(t, s, s', val, true, v, n0);
    }
  }

  /** The accumulator is known to be 0. */
  method OptAluZeroA(t: ValTable, s: Stmt, val: Vals) returns (s': Stmt, val': Vals)
    requires s.code.AluX? && !s.code.op.Sub? && Readable(t, s, val) && t.vmap[val[A]] == Some(0) &&
      t.vmap[val[X]] == None
    modifies t
    ensures t.Valid() && Numbered(old(t.nodes), val, s, true, t.nodes, val', s') && !s'.code.AluX? && !s'.code.AluK?
    ensures s'.code.Nop? <==> val'[A] == val[A]
  {
    ghost var n0 := t.nodes;
    forall at | Before(n0, val, s, true, at)
      ensures Exec(s, at.st, at.p) == Some(at.st[A := if s.code.op.Add? || s.code.op.Or? then at.st[X] else 0]) {
      ZeroLeft(t, s, val, at);
    }
    if s.code.op.Add? || s.code.op.Or? {
      s', val' := OptZeroCopy(t, s, val);
    } else {
      s', val' := LoadConstant(t, s, val, 0, true, n0);
    }
  }

  lemma ZeroLeft(t: ValTable, s: Stmt, val: Vals, at: Point)
    requires s.code.AluX? && !s.code.op.Sub? && Readable(t, s, val) && t.vmap[val[A]] == Some(0)
    requires Before(t.nodes, val, s, true, at)
    ensures Exec(s, at.st, at.p) == Some(at.st[A := if s.code.op.Add? || s.code.op.Or? then at.st[X] else 0])
  {
    assert A in Uses(s);
    ConstDen(t, val[A], at.p);
    UsedDen(t.nodes, val, s, true, at, A);
    ZeroAlu(s.code.op, at.st[X]);
  }

  method OptZeroCopy(t: ValTable, s: Stmt, val: Vals) returns (s': Stmt, val': Vals)
    requires s.code.AluX? && Readable(t, s, val) && (s.code.op.Add? || s.code.op.Or?)
    requires ConstAt(t.nodes, val[A]) == Some(0) && ConstAt(t.nodes, val[X]) == None
    requires forall at {:trigger Before(t.nodes, val, s, true, at)} ::
      Before(t.nodes, val, s, true, at) ==> Exec(s, at.st, at.p) == Some(at.st[A := at.st[X]])
    ensures Numbered(t.nodes, val, s, true, t.nodes, val', s') && !s'.code.AluX? && !s'.code.AluK?
    ensures s'.code.Nop? <==> val'[A] == val[A]
  {
    var s1 := s.(code := Txa);
    assert X in Uses(s);
    forall at | Before(t.nodes, val, s, true, at) ensures Names(t.nodes, s, s1, A, val[X], at) {
      UsedDen(t.nodes, val, s, true, at, X);
    }
    s', val' := StoredStmt(s1, val, A, val[X], true), val[A := val[X]];
    StoreNumbered(t.nodes, val, s, true, t.nodes, s1, A, val[X], true);
  }

  lemma ZeroAlu(op: AluOp, b: Word)
    ensures op.Add? || op.Or? ==> Alu(op, 0, b) == Some(b)
    ensures op.Mul? || op.And? || op.Lsh? || op.Rsh? ==> Alu(op, 0, b) == Some(0)
    ensures op.Div? && b != 0 ==> Alu(op, 0, b) == Some(0)
  {
    assert 0 * b == 0 && 0 * Pow2(b) == 0 && 0 / Pow2(b) == 0;
  }

  method OptAluX(t: ValTable, s: Stmt, val: Vals, alter: bool) returns (ok: bool, s': Stmt, val': Vals)
    requires s.code.AluX? && Readable(t, s, val)
    modifies t
    ensures t.Valid() && Grows(old(t.nodes), t.nodes)
    ensures !ok <==> alter && DividesByZero(old(t.nodes), val, s)
    ensures ok ==> Numbered(old(t.nodes), val, s, alter, t.nodes, val', s')
    ensures ok && alter ==> Simplified(old(t.nodes), val, s, s', val')
  {
    ok := true;
    if alter && t.vmap[val[X]].Some? {
      ok, s', val' := OptAluConstX(t, s, val, t.vmap[val[X]].value);
    } else if alter && t.vmap[val[A]] == Some(0) && !s.code.op.Sub? {
      s', val' := OptAluZeroA(t, s, val);
    } else {
      ghost var n0 := t.nodes;
      assert A in Uses(s) && X in Uses(s);
      forall at | Before(n0, val, s, alter, at)
        ensures Den(n0, val[A], at.p) == Some(at.st[A]) && Den(n0, val[X], at.p) == Some(at.st[X]) {
        UsedDen(n0, val, s, alter, at, A);
        UsedDen(n0, val, s, alter, at, X);
      }
      val' := OptAlu(t, s, s, val, alter, val[X], n0);
      s' := s;
    }
  }

  // ----- copies

  /** The atom written gets the number of the atom read; a register known to be constant
      is not read at all. */
  method OptCopy(t: ValTable, s: Stmt, val: Vals, alter: bool) returns (s': Stmt, val': Vals)
    requires Copies(s) && Readable(t, s, val)
    ensures Numbered(t.nodes, val, s, alter, t.nodes, val', s')
    ensures alter ==> Simplified(t.nodes, val, s, s', val')
  {
    var a, b, s1 := CopyFrom(s), CopyTo(s), s;
    var v := val[a];
    assert a in Uses(s);
    if alter && (s.code.LdMem? || s.code.LdxMem?) && t.vmap[v].Some? {
      s1 := Stmt(if s.code.LdMem? then LdImm else LdxImm, t.vmap[v].value);
    }
    s', val' := StoredStmt(s1, val, b, v, alter), val[b := v];
    CopyNames(t, s, s1, val, alter);
    StoreNumbered(t.nodes, val, s, alter, t.nodes, s1, b, v, alter);
  }

  lemma CopyNames(t: ValTable, s: Stmt, s1: Stmt, val: Vals, alter: bool)
    requires Copies(s) && Readable(t, s, val)
    requires s1 == s || (alter && t.vmap[val[CopyFrom(s)]].Some? &&
      ((s.code.LdMem? && s1 == Stmt(LdImm, t.vmap[val[CopyFrom(s)]].value)) ||
       (s.code.LdxMem? && s1 == Stmt(LdxImm, t.vmap[val[CopyFrom(s)]].value))))
    ensures forall at {:trigger Names(t.nodes, s, s1, CopyTo(s), val[CopyFrom(s)], at)} ::
      Before(t.nodes, val, s, alter, at) ==> Names(t.nodes, s, s1, CopyTo(s), val[CopyFrom(s)], at)
  {
    var a := CopyFrom(s);
    forall at | Before(t.nodes, val, s, alter, at) ensures Names(t.nodes, s, s1, CopyTo(s), val[a], at) {
      UsedDen(t.nodes, val, s, alter, at, a);
      if t.vmap[val[a]].Some? {
        ConstDen(t, val[a], at.p);
      }
    }
  }

  /** One statement, of any kind; it is refused exactly when a constant is to be divided
      by the constant 0. At most two new numbers are handed out. */
  method OptStmt(t: ValTable, s: Stmt, val: Vals, alter: bool) returns (ok: bool, s': Stmt, val': Vals)
    requires Readable(t, s, val)
    modifies t
    ensures t.Valid() && Grows(old(t.nodes), t.nodes)
    ensures !ok <==> alter && DividesByZero(old(t.nodes), val, s)
    ensures ok ==> Numbered(old(t.nodes), val, s, alter, t.nodes, val', s')
    ensures ok && alter ==> Simplified(old(t.nodes), val, s, s', val')
  {
    ok := true;
    if s.code.LdInd? {
      s', val' := OptInd(t, s, val, alter);
    } else if s.code.Neg? {
      s', val' := OptNeg(t, s, val, alter);
    } else if s.code.AluK? {
      ok, s', val' := OptAluK(t, s, val, alter);
    } else if s.code.AluX? {
      ok, s', val' := OptAluX(t, s, val, alter);
    } else if s.code.Nop? {
      s', val' := s, val;
      NopNumbered(t.nodes, val, s, alter);
    } else if Copies(s) {
      s', val' := OptCopy(t, s, val, alter);
    } else {
      s', val' := OptAbs(t, s, val, alter);
    }
  }

  lemma NopNumbered(n: seq<VNode>, val: Vals, s: Stmt, alter: bool)
    requires s.code.Nop? && Handed(n, val)
    ensures Numbered(n, val, s, alter, n, val, s)
  {
    forall at ensures SoundAt(n, val, s, alter, n, val, s, at) {
      if Before(n, val, s, alter, at) {
        assert at.D + DefSet(s) == at.D;
      }
    }
  }

  // ----- the statements of a block

  /** How many statements a list holds, deleted ones not counting. */
  function SLength(ss: seq<Stmt>): nat {
    if ss == [] then 0 else SLength(ss[..|ss| - 1]) + (if ss[|ss| - 1].code.Nop? then 0 else 1)
  }

  /** Every atom read is known on entry or written earlier in the list. */
  ghost predicate ReadsIn(ss: seq<Stmt>, D: set<nat>) {
    forall k {:trigger ss[k]} :: 0 <= k < |ss| ==> Uses(ss[k]) <= D + DefsOf(ss[..k])
  }

  /** The hypotheses under which a run through the list is followed. */
  ghost predicate ListBefore(nodes: seq<VNode>, val: Vals, ss: seq<Stmt>, alter: bool, at: Point) {
    && Consistent(nodes, val, at.D, at.st, at.p) && ReadsIn(ss, at.D)
    && (alter ==> Known(val) <= at.D)
    && ExecList(ss, at.st, at.p).Some?
  }

  ghost predicate ListAfter(nodes: seq<VNode>, val: Vals, ss: seq<Stmt>, ss': seq<Stmt>, at: Point)
    requires ExecList(ss, at.st, at.p).Some?
  {
    && ExecList(ss', at.st, at.p) == ExecList(ss, at.st, at.p)
    && Consistent(nodes, val, at.D + DefsOf(ss), ExecList(ss, at.st, at.p).value, at.p)
  }

  ghost predicate ListSoundAt(n0: seq<VNode>, v0: Vals, ss: seq<Stmt>, alter: bool, n1: seq<VNode>, v1: Vals,
                              ss': seq<Stmt>, at: Point) {
    ListBefore(n0, v0, ss, alter, at) ==> ListAfter(n1, v1, ss, ss', at)
  }

  /** From any state consistent with the numbers on entry, a run of the list that does
      not abort reaches the same state when the list has been rewritten, and the numbers
      on exit are right for it. */
  ghost predicate ListSound(n0: seq<VNode>, v0: Vals, ss: seq<Stmt>, alter: bool, n1: seq<VNode>, v1: Vals,
                            ss': seq<Stmt>) {
    forall at {:trigger ListSoundAt(n0, v0, ss, alter, n1, v1, ss', at)} ::
      ListSoundAt(n0, v0, ss, alter, n1, v1, ss', at)
  }

  /** The numbers before each statement and after the last. */
  type NumberTrace = seq<Vals>

  /** Every fold performed agrees with the machine. */
  ghost predicate ListAgrees(nodes: seq<VNode>, tr: NumberTrace, ss: seq<Stmt>) {
    |tr| > |ss| && forall k {:trigger ss[k]} :: 0 <= k < |ss| ==> Agrees(nodes, tr[k], ss[k])
  }

  /** What became of statement `k`: it does not divide by zero, and it is simplified. */
  ghost predicate Stepped(nodes: seq<VNode>, tr: NumberTrace, ss: seq<Stmt>, ss': seq<Stmt>, alter: bool, k: nat)
    requires k < |ss| == |ss'| && |ss| < |tr|
  {
    && Handed(nodes, tr[k]) && Handed(nodes, tr[k + 1]) && Named(nodes, tr[k], ss[k], alter, tr[k + 1])
    && (forall a {:trigger tr[k + 1][a]} :: 0 <= a < N_ATOMS && a !in DefSet(ss[k]) ==> tr[k + 1][a] == tr[k][a])
    && (alter ==> !DividesByZero(nodes, tr[k], ss[k]) && Simplified(nodes, tr[k], ss[k], ss'[k], tr[k + 1]))
  }

  ghost predicate AllPlain(ss: seq<Stmt>) {
    forall k {:trigger ss[k]} :: 0 <= k < |ss| ==> Plain(ss[k])
  }

  ghost predicate ListNumbered(n0: seq<VNode>, v0: Vals, ss: seq<Stmt>, alter: bool, n1: seq<VNode>, v1: Vals,
                               ss': seq<Stmt>, tr: NumberTrace) {
    && Grows(n0, n1) && |n1| <= |n0| + 2 * SLength(ss) && Handed(n1, v1) && |ss'| == |ss|
    && (forall a {:trigger v1[a]} :: 0 <= a < N_ATOMS ==>
          if a in DefsOf(ss) then ReadsIn(ss, Known(v0)) ==> v1[a] > 0 else v1[a] == v0[a])
    && (!alter ==> ss' == ss) && AllPlain(ss')
    && |tr| == |ss| + 1 && tr[0] == v0 && tr[|ss|] == v1
    && (forall k {:trigger Stepped(n1, tr, ss, ss', alter, k)} :: 0 <= k < |ss| ==> Stepped(n1, tr, ss, ss', alter, k))
    && ((alter ==> ListAgrees(n1, tr, ss)) ==> ListSound(n0, v0, ss, alter, n1, v1, ss'))
  }

  /** The hypotheses on a list hold of all but its last statement, and of that. */
  lemma BeforeParts(n0: seq<VNode>, v0: Vals, ss: seq<Stmt>, s: Stmt, alter: bool, at: Point)
    requires ListBefore(n0, v0, ss + [s], alter, at)
    ensures ListBefore(n0, v0, ss, alter, at) && Uses(s) <= at.D + DefsOf(ss)
    ensures
      var st1 := ExecList(ss, at.st, at.p).value;
      Exec(s, st1, at.p).Some? && ExecList(ss + [s], at.st, at.p) == Exec(s, st1, at.p)
  {
    var all := ss + [s];
    assert all[..|all| - 1] == ss && all[|ss|] == s && all[..|ss|] == ss;
    forall k | 0 <= k < |ss| ensures Uses(ss[k]) <= at.D + DefsOf(ss[..k]) {
      assert all[k] == ss[k] && all[..k] == ss[..k];
    }
    ExecSnoc(ss, s, at.st, at.p);
  }

  lemma ListStepAt(n0: seq<VNode>, v0: Vals, ss: seq<Stmt>, alter: bool, n1: seq<VNode>, v1: Vals, ss': seq<Stmt>,
                   s: Stmt, n2: seq<VNode>, v2: Vals, s': Stmt, at: Point)
    requires ListSound(n0, v0, ss, alter, n1, v1, ss') && Numbered(n1, v1, s, alter, n2, v2, s')
    requires forall a {:trigger v1[a]} :: 0 <= a < N_ATOMS && a !in DefsOf(ss) ==> v1[a] == v0[a]
    requires alter ==> Agrees(n1, v1, s)
    requires ListBefore(n0, v0, ss + [s], alter, at)
    ensures ListAfter(n2, v2, ss + [s], ss' + [s'], at)
  {
    BeforeParts(n0, v0, ss, s, alter, at);
    assert ListSoundAt(n0, v0, ss, alter, n1, v1, ss', at);
    var at1 := Point(at.D + DefsOf(ss), ExecList(ss, at.st, at.p).value, at.p);
    if alter {
      KnownAfter(v0, v1, ss, at.D);
    }
    assert SoundAt(n1, v1, s, alter, n2, v2, s', at1);
    AfterParts(n2, v2, ss, ss', s, s', at, at1);
  }

  lemma KnownAfter(v0: Vals, v1: Vals, ss: seq<Stmt>, D: set<nat>)
    requires forall a {:trigger v1[a]} :: 0 <= a < N_ATOMS && a !in DefsOf(ss) ==> v1[a] == v0[a]
    requires Known(v0) <= D
    ensures Known(v1) <= D + DefsOf(ss)
  {
    forall a | a in Known(v1) ensures a in D + DefsOf(ss) {
      assert v1[a] != 0;
      assert a !in DefsOf(ss) ==> a in Known(v0);
    }
  }

  /** The parts of a list run one after the other. */
  lemma AfterParts(n2: seq<VNode>, v2: Vals, ss: seq<Stmt>, ss': seq<Stmt>, s: Stmt, s': Stmt, at: Point, at1: Point)
    requires ExecList(ss, at.st, at.p) == Some(at1.st) && ExecList(ss', at.st, at.p) == Some(at1.st)
    requires at1.p == at.p && at1.D == at.D + DefsOf(ss)
    requires Exec(s, at1.st, at1.p).Some? && After(n2, v2, s, s', at1)
    ensures ExecList(ss + [s], at.st, at.p).Some? && ListAfter(n2, v2, ss + [s], ss' + [s'], at)
  {
    ExecSnoc(ss, s, at.st, at.p);
    ExecSnoc(ss', s', at.st, at.p);
    assert (ss + [s])[..|ss + [s]| - 1] == ss;
    assert at.D + DefsOf(ss) + DefSet(s) == at.D + DefsOf(ss + [s]);
  }

  /** When the whole list reads only known atoms, so do its parts. */
  lemma ReadsLess(ss: seq<Stmt>, s: Stmt, v0: Vals, v1: Vals)
    requires ReadsIn(ss + [s], Known(v0))
    requires forall a {:trigger v1[a]} :: 0 <= a < N_ATOMS ==>
      if a in DefsOf(ss) then ReadsIn(ss, Known(v0)) ==> v1[a] > 0 else v1[a] == v0[a]
    ensures ReadsIn(ss, Known(v0)) && ReadsKnown(v1, s)
  {
    var all := ss + [s];
    assert all[|ss|] == s && all[..|ss|] == ss;
    forall k | 0 <= k < |ss| ensures Uses(ss[k]) <= Known(v0) + DefsOf(ss[..k]) {
      assert all[k] == ss[k] && all[..k] == ss[..k];
    }
    forall a | a in Uses(s) && 0 <= a < N_ATOMS ensures v1[a] > 0 {
      assert a in Known(v0) || a in DefsOf(ss);
    }
  }

  /** A step keeps its properties when more numbers are handed out. */
  lemma SteppedGrows(n1: seq<VNode>, n2: seq<VNode>, tr: NumberTrace, ss: seq<Stmt>, ss': seq<Stmt>, alter: bool,
                     k: nat)
    requires k < |ss| == |ss'| && |ss| < |tr| && Stepped(n1, tr, ss, ss', alter, k) && Grows(n1, n2)
    ensures Stepped(n2, tr, ss, ss', alter, k) && Agrees(n2, tr[k], ss[k]) == Agrees(n1, tr[k], ss[k])
  {
    ConstGrows(n1, n2, tr[k], ss[k]);
    NamedGrows(n1, n2, tr[k], ss[k], alter, tr[k + 1]);
  }

  lemma ListSteps(ss: seq<Stmt>, alter: bool, n1: seq<VNode>, v1: Vals, ss': seq<Stmt>, tr: NumberTrace, s: Stmt,
                  n2: seq<VNode>, v2: Vals, s': Stmt)
    requires |tr| == |ss| + 1 && |ss'| == |ss| && tr[|ss|] == v1 && Handed(n1, v1)
    requires forall k {:trigger Stepped(n1, tr, ss, ss', alter, k)} ::
      0 <= k < |ss| ==> Stepped(n1, tr, ss, ss', alter, k)
    requires Grows(n1, n2) && Handed(n2, v2) && Named(n2, v1, s, alter, v2)
    requires forall a {:trigger v2[a]} :: 0 <= a < N_ATOMS && a !in DefSet(s) ==> v2[a] == v1[a]
    requires alter ==> !DividesByZero(n1, v1, s) && Simplified(n1, v1, s, s', v2)
    ensures
      var all, all', tr' := ss + [s], ss' + [s'], tr + [v2];
      && (forall k {:trigger Stepped(n2, tr', all, all', alter, k)} ::
        0 <= k < |all| ==> Stepped(n2, tr', all, all', alter, k))
      && (ListAgrees(n2, tr', all) ==> ListAgrees(n1, tr, ss) && Agrees(n1, v1, s))
  {
    var all, all', tr' := ss + [s], ss' + [s'], tr + [v2];
    ConstGrows(n1, n2, v1, s);
    forall k | 0 <= k < |all|
      ensures Stepped(n2, tr', all, all', alter, k)
      ensures Agrees(n2, tr'[k], all[k]) ==> Agrees(n1, tr'[k], all[k]) {
      if k < |ss| {
        SteppedGrows(n1, n2, tr, ss, ss', alter, k);
      }
    }
    if ListAgrees(n2, tr', all) {
      forall k | 0 <= k < |all| ensures Agrees(n1, tr'[k], all[k]) {
        assert Agrees(n2, tr'[k], all[k]);
      }
      forall k | 0 <= k < |ss| ensures Agrees(n1, tr[k], ss[k]) {
        assert Agrees(n1, tr'[k], all[k]);
      }
      assert Agrees(n1, tr'[|ss|], all[|ss|]);
    }
  }

  lemma ListStep(n0: seq<VNode>, v0: Vals, ss: seq<Stmt>, alter: bool, n1: seq<VNode>, v1: Vals, ss': seq<Stmt>,
                 tr: NumberTrace, s: Stmt, n2: seq<VNode>, v2: Vals, s': Stmt)
    requires ListNumbered(n0, v0, ss, alter, n1, v1, ss', tr) && Numbered(n1, v1, s, alter, n2, v2, s')
    requires alter ==> !DividesByZero(n1, v1, s) && Simplified(n1, v1, s, s', v2)
    ensures ListNumbered(n0, v0, ss + [s], alter, n2, v2, ss' + [s'], tr + [v2])
  {
    var all, all' := ss + [s], ss' + [s'];
    assert all[..|all| - 1] == ss;
    GrowsTrans(n0, n1, n2);
    forall a | 0 <= a < N_ATOMS
      ensures if a in DefsOf(all) then ReadsIn(all, Known(v0)) ==> v2[a] > 0 else v2[a] == v0[a] {
      assert v1[a] == v1[a];
      if ReadsIn(all, Known(v0)) {
        ReadsLess(ss, s, v0, v1);
      }
    }
    ListSteps(ss, alter, n1, v1, ss', tr, s, n2, v2, s');
    if alter ==> ListAgrees(n2, tr + [v2], all) {
      forall at ensures ListSoundAt(n0, v0, all, alter, n2, v2, all', at) {
        if ListBefore(n0, v0, all, alter, at) {
          ListStepAt(n0, v0, ss, alter, n1, v1, ss', s, n2, v2, s', at);
        }
      }
    }
  }

  lemma NoStatements(n: seq<VNode>, val: Vals, alter: bool)
    requires Handed(n, val)
    ensures ListNumbered(n, val, [], alter, n, val, [], [val])
  {
    forall at ensures ListSoundAt(n, val, [], alter, n, val, [], at) {
      assert at.D + DefsOf([]) == at.D;
    }
  }

  lemma SLengthPrefix(ss: seq<Stmt>, k: nat)
    requires k < |ss|
    ensures SLength(ss[..k]) + (if ss[k].code.Nop? then 0 else 1) <= SLength(ss)
    decreases |ss|
  {
    if k < |ss| - 1 {
      assert ss[..|ss| - 1][..k] == ss[..k];
      SLengthPrefix(ss[..|ss| - 1], k);
    }
  }

  /** Where a list was refused: its first statements have been executed symbolically, and
      the next one divides a constant by the constant 0. */
  ghost predicate Refused(n0: seq<VNode>, v0: Vals, ss: seq<Stmt>, nodes: seq<VNode>, v: Vals, ss': seq<Stmt>,
                          tr: NumberTrace) {
    && |ss'| < |ss| && ListNumbered(n0, v0, ss[..|ss'|], true, nodes, v, ss', tr)
    && DividesByZero(nodes, v, ss[|ss'|])
  }

  /** The symbolic execution of a whole list. */
  method OptList(t: ValTable, ss: seq<Stmt>, val0: Vals, alter: bool)
    returns (ok: bool, ss': seq<Stmt>, val: Vals, ghost tr: NumberTrace, ghost mid: seq<VNode>)
    requires t.Valid() && t.curval + 2 * SLength(ss) + 2 < t.maxval && Handed(t.nodes, val0)
    requires forall k :: 0 <= k < |ss| ==> Plain(ss[k])
    modifies t
    ensures t.Valid() && Grows(old(t.nodes), t.nodes)
    ensures ok ==> ListNumbered(old(t.nodes), val0, ss, alter, t.nodes, val, ss', tr)
    ensures !ok ==> alter && Grows(mid, t.nodes) && Refused(old(t.nodes), val0, ss, mid, val, ss', tr)
  {
    ok, ss', val, tr, mid := true, [], val0, [val0], t.nodes;
    ghost var n0 := t.nodes;
    NoStatements(n0, val0, alter);
    var k := 0;
    assert ss[..0] == [];
    while k < |ss|
      invariant 0 <= k <= |ss| && t.Valid()
      invariant ListNumbered(n0, val0, ss[..k], alter, t.nodes, val, ss', tr)
    {
      mid := t.nodes;
      SLengthPrefix(ss, k);
      var s', v;
      ok, s', v := OptStmt(t, ss[k], val, alter);
      GrowsTrans(n0, mid, t.nodes);
      if !ok {
        return;
      }
      ListStep(n0, val0, ss[..k], alter, mid, val, ss', tr, ss[k], t.nodes, v, s');
      Snoc(ss, k);
      ss', val, tr := ss' + [s'], v, tr + [v];
      k := k + 1;
    }
    assert ss[..|ss|] == ss;
  }

  /** A statement that is refused aborts in every state consistent with the numbers. */
  lemma RefusedAborts(nodes: seq<VNode>, val: Vals, s: Stmt, st: Store, p: Packet)
    requires DividesByZero(nodes, val, s) && Consistent(nodes, val, Known(val), st, p)
    requires forall i {:trigger nodes[i]} :: 0 <= i < |nodes| ==> ArgsBelow(nodes[i], i + 1)
    ensures Exec(s, st, p) == None
  {
    if s.code.AluX? {
      assert X in Known(val);
      assert st[X] == st[X];
      assert Den(nodes, val[X], p) == Some(0);
    }
  }

  // ----- unknown numbers

  /** A store is dropped when the atom already has the number to be stored, whether or not
      the number is known. Dropping a copy is right in every state consistent with the
      known numbers exactly when its number is known. */
  lemma DropExact(nodes: seq<VNode>, val: Vals, s: Stmt, st0: Store, p: Packet)
    requires Copies(s) && Plain(s) && CopyFrom(s) != CopyTo(s) && val[CopyFrom(s)] == val[CopyTo(s)]
    requires Consistent(nodes, val, Known(val), st0, p)
    ensures StoredStmt(s, val, CopyTo(s), val[CopyFrom(s)], true).code.Nop?
    ensures
      (forall st {:trigger Dropping(nodes, val, s, st, p)} :: Dropping(nodes, val, s, st, p)) <==> val[CopyFrom(s)] != 0
  {
    var a, b := CopyFrom(s), CopyTo(s);
    if val[a] == 0 {
      var w: Word := if st0[b] == 0 then 1 else 0;
      var st := st0[a := w];
      forall c | c in Known(val) && 0 <= c < N_ATOMS ensures Den(nodes, val[c], p) == Some(st[c]) {
        assert c != a && st0[c] == st0[c];
      }
      assert Exec(s, st, p).value[b] == w != st[b];
      assert !Dropping(nodes, val, s, st, p);
    } else {
      forall st ensures Dropping(nodes, val, s, st, p) {
        if Consistent(nodes, val, Known(val), st, p) {
          assert a in Known(val) && b in Known(val) && st[a] == st[b];
          assert st[b := st[a]] == st;
        }
      }
    }
  }

  /** Dropping the statement makes no difference in this state. */
  ghost predicate Dropping(nodes: seq<VNode>, val: Vals, s: Stmt, st: Store, p: Packet) {
    Consistent(nodes, val, Known(val), st, p) ==> Exec(s, st, p) == Some(st)
  }

  /** Such a copy, and a state in which it matters. */
  lemma UnknownCopyDropped()
    ensures
      var val := [0, 0, 0, 0, 0, 0, 0, 0, 0, 0, 0, 0, 0, 0, 0, 0, 0, 0];
      var s, at := Stmt(Txa, 0), Point({}, [0, 0, 0, 0, 0, 0, 0, 0, 0, 0, 0, 0, 0, 0, 0, 0, 0, 1], Packet([], 0));
      && Consistent([], val, Known(val), at.st, at.p) && !ReadsKnown(val, s)
      && StoredStmt(s, val, A, val[X], true).code.Nop?
      && Exec(StoredStmt(s, val, A, val[X], true), at.st, at.p) != Exec(s, at.st, at.p)
  {
    var val: Vals := [0, 0, 0, 0, 0, 0, 0, 0, 0, 0, 0, 0, 0, 0, 0, 0, 0, 0];
    var st: Store := [0, 0, 0, 0, 0, 0, 0, 0, 0, 0, 0, 0, 0, 0, 0, 0, 0, 1];
    assert X in Uses(Stmt(Txa, 0)) && val[X] == 0;
    assert Exec(Stmt(Txa, 0), st, Packet([], 0)) == Some(st[A := 1]);
    assert st[A := 1][A] != st[A];
  }

  /** A list that reads only known atoms never gets there: no copy in it has an unknown
      number. */
  lemma KnownCopies(ss: seq<Stmt>, v0: Vals, n0: seq<VNode>, n1: seq<VNode>, v1: Vals, ss': seq<Stmt>, tr: NumberTrace,
                    alter: bool, s: Stmt)
    requires ListNumbered(n0, v0, ss, alter, n1, v1, ss', tr) && ReadsIn(ss + [s], Known(v0)) && Copies(s) && Plain(s)
    ensures v1[CopyFrom(s)] != 0
  {
    ReadsLess(ss, s, v0, v1);
    assert CopyFrom(s) in Uses(s);
  }
}
