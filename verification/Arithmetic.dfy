/** Code for arithmetic expressions and comparisons: every intermediate value lives in
    a scratch register until it is used. */
module Arithmetic {
  import opened Bpf
  import opened Atoms
  import opened Constancy
  import opened Lists
  import opened Seal
  import opened Fragment
  import opened Backpatch
  import opened Language
  import opened Fields
  import opened Codegen

  // ----- registers

  function Free(u: seq<bool>): (n: nat)
    ensures n <= |u|
  {
    if u == [] then 0 else (if u[0] then 0 else 1) + Free(u[1..])
  }

  lemma {:induction false} FreeTaken(u: seq<bool>, r: nat)
    requires r < |u| && !u[r]
    ensures Free(u[r := true]) == Free(u) - 1
  {
    if r > 0 {
      FreeTaken(u[1..], r - 1);
      assert u[r := true][1..] == u[1..][r - 1 := true];
    } else {
      assert u[r := true][1..] == u[1..];
    }
  }

  lemma {:induction false} FreeNone(u: seq<bool>)
    ensures Free(u) == 0 <==> forall r :: 0 <= r < |u| ==> u[r]
  {
    if u != [] {
      FreeNone(u[1..]);
      assert forall r :: 0 < r < |u| ==> u[r] == u[1..][r - 1];
    }
  }

  /** `i` is among the `k` registers that follow `start` going round. */
  predicate Between(start: nat, k: nat, i: nat) {
    start <= i < start + k || i + MEMWORDS < start + k
  }

  /** How far `r` is from `start` going round. */
  function Gap(start: nat, r: nat): nat
    requires start < MEMWORDS
  {
    if r >= start then r - start else r + MEMWORDS - start
  }

  /** The table of registers; the search for a free one goes round from the last. */
  class Registers {
    const regused: array<bool>
    var curreg: nat

    ghost predicate Valid()
      reads this
    {
      regused.Length == MEMWORDS && curreg < MEMWORDS
    }

    constructor ()
      ensures Valid() && fresh(regused) && regused[..] == seq(MEMWORDS, i => false)
    {
      regused := new bool[MEMWORDS](i => false);
      curreg := 0;
    }

    /** Takes the first free register going round; there is none only when all are in use. */
    method AllocReg() returns (r: Option<nat>)
      requires Valid()
      modifies this, regused
      ensures Valid()
      ensures r == None <==> Free(old(regused[..])) == 0
      ensures r == None ==> regused[..] == old(regused[..])
      ensures r.Some? ==>
        r.value < MEMWORDS && !old(regused[r.value]) && regused[..] == old(regused[..])[r.value := true]
      ensures r.Some? ==> curreg == r.value
      ensures r.Some? ==> forall i ::
        0 <= i < MEMWORDS && Between(old(curreg), Gap(old(curreg), r.value), i) ==> old(regused[i])
    {
      FreeNone(regused[..]);
      var n := MEMWORDS;
      ghost var start := curreg;
      while n > 0
        invariant Valid() && regused[..] == old(regused[..])
        invariant 0 <= n <= MEMWORDS && start < MEMWORDS
        invariant curreg == if start + (MEMWORDS - n) < MEMWORDS then start + (MEMWORDS - n) else start - n
        invariant forall i :: 0 <= i < MEMWORDS && Between(start, MEMWORDS - n, i) ==> regused[i]
      {
        n := n - 1;
        if regused[curreg] {
          curreg := (curreg + 1) % MEMWORDS;
        } else {
          assert regused[..][curreg] == false;
          regused[curreg] := true;
          return Some(curreg);
        }
      }
      assert forall r :: 0 <= r < MEMWORDS ==> Between(start, MEMWORDS, r);
      return None;
    }

    method FreeReg(n: nat)
      requires Valid() && n < MEMWORDS
      modifies regused
      ensures Valid() && regused[..] == old(regused[..])[n := false]
    {
      regused[n] := false;
    }
  }

  // ----- code that computes a value

  /** An expression being compiled: its protocol checks (-1 if there are none), its
      code, and the register its value is left in. */
  class Arth {
    var b: int
    var s: seq<Stmt>
    var regno: nat

    constructor (s: seq<Stmt>, regno: nat)
      ensures this.b == -1 && this.s == s && this.regno == regno
    {
      this.b, this.s, this.regno := -1, s, regno;
    }
  }

  /** The statements of a block so far: they fall through, read only what has been
      written, and have written the atoms of `D`. */
  ghost predicate WellMade(s: seq<Stmt>, D: set<nat>) {
    forall u {:trigger Opened(u)} :: Opened(u) ==>
      (forall i {:trigger s[i]} :: 0 <= i < |s| ==> Safe(s[i])) && ClosedList(s) && D <= DefsOf(s)
  }

  lemma MadeSnoc(s: seq<Stmt>, D: set<nat>, s0: Stmt)
    requires WellMade(s, D) && Safe(s0) && Uses(s0) <= D
    ensures WellMade(s + [s0], D + DefSet(s0))
  {
    assert Opened(Key);
    ClosedSnoc(s, s0);
  }

  lemma MadeNothing()
    ensures WellMade([], {})
  {
  }

  lemma MadeTwo(s: seq<Stmt>, D: set<nat>, s0: Stmt, s1: Stmt)
    requires WellMade(s, D) && Safe(s0) && Safe(s1) && Uses(s0) <= D && Uses(s1) <= D + DefSet(s0)
    ensures WellMade(s + [s0, s1], D + DefSet(s0) + DefSet(s1))
  {
    MadeSnoc(s, D, s0);
    MadeSnoc(s + [s0], D + DefSet(s0), s1);
    assert s + [s0] + [s1] == s + [s0, s1];
  }

  lemma MadeThree(s: seq<Stmt>, D: set<nat>, s0: Stmt, s1: Stmt, s2: Stmt)
    requires WellMade(s, D) && Safe(s0) && Safe(s1) && Safe(s2)
    requires Uses(s0) <= D && Uses(s1) <= D + DefSet(s0) && Uses(s2) <= D + DefSet(s0) + DefSet(s1)
    ensures WellMade(s + [s0, s1, s2], D + DefSet(s0) + DefSet(s1) + DefSet(s2))
  {
    MadeTwo(s, D, s0, s1);
    MadeSnoc(s + [s0, s1], D + DefSet(s0) + DefSet(s1), s2);
    assert s + [s0, s1] + [s2] == s + [s0, s1, s2];
  }

  lemma MadeLess(s: seq<Stmt>, D: set<nat>, E: set<nat>)
    requires WellMade(s, D) && E <= D
    ensures WellMade(s, E)
  {
    assert Opened(Key);
  }

  lemma MadeAppend(a: seq<Stmt>, D: set<nat>, b: seq<Stmt>, E: set<nat>)
    requires WellMade(a, D) && WellMade(b, E)
    ensures WellMade(a + b, D + E)
  {
    assert Opened(Key);
    ClosedAppend(a, b);
  }

  /** A pair that puts something in A and stores it. */
  lemma MadeLoad(s0: Stmt, r: nat)
    requires Safe(s0) && Uses(s0) == {} && DefSet(s0) == {A} && r < MEMWORDS
    ensures WellMade([s0, Stmt(St, r)], {r})
  {
    var s1 := Stmt(St, r);
    var t := [s0, s1];
    MadeNothing();
    MadeTwo([], {}, s0, s1);
    assert [] + t == t;
    assert r in DefSet(s1);
    MadeLess(t, {} + DefSet(s0) + DefSet(s1), {r});
  }

  lemma MadeNeg(s: seq<Stmt>, r: nat)
    requires WellMade(s, {r}) && r < MEMWORDS
    ensures WellMade(s + [Stmt(LdMem, r), Stmt(Neg, 0), Stmt(St, r)], {r})
  {
    MadeThree(s, {r}, Stmt(LdMem, r), Stmt(Neg, 0), Stmt(St, r));
    MadeLess(s + [Stmt(LdMem, r), Stmt(Neg, 0), Stmt(St, r)], {r} + {A} + {A} + {r}, {r});
  }

  lemma MadeOperate(s: seq<Stmt>, rl: nat, rr: nat, op: AluOp)
    requires WellMade(s, {rl, rr}) && rl < MEMWORDS && rr < MEMWORDS
    ensures WellMade(s + [Stmt(LdxMem, rr), Stmt(LdMem, rl), Stmt(AluX(op), 0)], {A})
  {
    var t := [Stmt(LdxMem, rr), Stmt(LdMem, rl), Stmt(AluX(op), 0)];
    MadeThree(s, {rl, rr}, t[0], t[1], t[2]);
    MadeLess(s + t, {rl, rr} + {X} + {A} + {A}, {A});
  }

  lemma MadeFetch(s: seq<Stmt>, rl: nat, rr: nat)
    requires WellMade(s, {rl, rr}) && rl < MEMWORDS && rr < MEMWORDS
    ensures WellMade(s + [Stmt(LdxMem, rr), Stmt(LdMem, rl)], {A, X})
  {
    MadeTwo(s, {rl, rr}, Stmt(LdxMem, rr), Stmt(LdMem, rl));
    MadeLess(s + [Stmt(LdxMem, rr), Stmt(LdMem, rl)], {rl, rr} + {X} + {A}, {A, X});
  }

  lemma MadeStore(s: seq<Stmt>, n: nat)
    requires WellMade(s, {A}) && n < MEMWORDS
    ensures WellMade(s + [Stmt(St, n)], {n})
  {
    MadeSnoc(s, {A}, Stmt(St, n));
    MadeLess(s + [Stmt(St, n)], {A} + {n}, {n});
  }

  lemma MadeItem(s: seq<Stmt>, proto: Proto, r: nat, size: Size, env: Env)
    requires WellMade(s, {r}) && r < MEMWORDS
    ensures WellMade(s + ItemCode(proto, r, size, env), {A})
  {
    var t := ItemCode(proto, r, size, env);
    if proto.QTran? {
      MadeTwo(s, {r}, t[0], t[1]);
      MadeThree(s + [t[0], t[1]], {r} + {X} + {A}, t[2], t[3], t[4]);
      assert s + [t[0], t[1]] + [t[2], t[3], t[4]] == s + t;
      MadeLess(s + t, {r} + {X} + {A} + {A} + {X} + {A}, {A});
    } else {
      MadeTwo(s, {r}, t[0], t[1]);
      assert t == [t[0], t[1]];
      MadeLess(s + t, {r} + {X} + {A}, {A});
    }
  }

  // ----- how much code

  /** Room for the statements of an expression. */
  function CodeSize(e: Arith): nat {
    match e
    case Imm(_) => 2
    case PktLen => 2
    case Index(_, at, _) => CodeSize(at) + 6
    case Minus(a) => CodeSize(a) + 3
    case Bin(_, l, r) => CodeSize(l) + CodeSize(r) + 4
  }

  /** Room for its protocol checks. */
  function CheckRoom(e: Arith): nat {
    match e
    case Imm(_) => 0
    case PktLen => 0
    case Index(_, at, _) => CheckRoom(at) + 24
    case Minus(a) => CheckRoom(a)
    case Bin(_, l, r) => CheckRoom(l) + CheckRoom(r)
  }

  /** What the optimizer finds the expression to be: a constant or none. */
  function Kind(e: Arith): Abs {
    match e
    case Imm(v) => Is(v)
    case PktLen => Varies
    case Index(_, _, _) => Varies
    case Minus(a) => AbsNeg(Kind(a))
    case Bin(op, l, r) => AbsAlu(op, Kind(l), Kind(r))
  }

  /** Nothing in the expression is divided by a constant 0, and a division or a shift of
      constants is one on which folding agrees with the machine. */
  predicate SteadyArith(e: Arith) {
    match e
    case Imm(_) => true
    case PktLen => true
    case Index(_, at, _) => SteadyArith(at)
    case Minus(a) => SteadyArith(a)
    case Bin(op, l, r) => SteadyArith(l) && SteadyArith(r) && OkAlu(op, Kind(l), Kind(r))
  }

  /** One run of the code: it aborts exactly when there is no value, leaves the value
      in its register and disturbs no register in use. */
  ghost predicate ComputesAt(s: seq<Stmt>, regno: nat, used: Used, v: Option<Word>, st: Store, p: Packet)
    requires regno < MEMWORDS
  {
    match ExecList(s, st, p)
    case None => v == None
    case Some(st1) => v == Some(st1[regno]) && forall r :: 0 <= r < MEMWORDS && used[r] ==> st1[r] == st[r]
  }

  ghost predicate Computes(s: seq<Stmt>, regno: nat, used: Used, e: Arith, env: Env) {
    && regno < MEMWORDS && !used[regno] && WellMade(s, {regno}) && |s| <= CodeSize(e)
    && LeavesKinds(s, regno, Kind(e), regno, Kind(e), used, SteadyArith(e))
    && forall st, p {:trigger ExecList(s, st, p)} :: ComputesAt(s, regno, used, Value(e, env, p), st, p)
  }

  lemma ExecTwo(s0: Stmt, s1: Stmt, st: Store, p: Packet)
    ensures ExecList([s0, s1], st, p) ==
            (match Exec(s0, st, p) case None => None case Some(st1) => Exec(s1, st1, p))
  {
    ExecListAppend([s0], [s1], st, p);
    assert [s0, s1] == [s0] + [s1];
    ExecOne(s0, st, p);
    match Exec(s0, st, p) {
      case None =>
      case Some(st1) => ExecOne(s1, st1, p);
    }
  }

  lemma ExecThree(s0: Stmt, s1: Stmt, s2: Stmt, st: Store, p: Packet)
    ensures ExecList([s0, s1, s2], st, p) ==
            (match Exec(s0, st, p)
             case None => None
             case Some(st1) => match Exec(s1, st1, p) case None => None case Some(st2) => Exec(s2, st2, p))
  {
    ExecListAppend([s0], [s1, s2], st, p);
    assert [s0, s1, s2] == [s0] + [s1, s2];
    ExecOne(s0, st, p);
    match Exec(s0, st, p) {
      case None =>
      case Some(st1) => ExecTwo(s1, s2, st1, p);
    }
  }

  lemma LoadiComputes(v: Word, r: nat, used: Used, env: Env)
    requires r < MEMWORDS && !used[r]
    ensures Computes([Stmt(LdImm, v), Stmt(St, r)], r, used, Imm(v), env)
  {
    var s := [Stmt(LdImm, v), Stmt(St, r)];
    MadeLoad(s[0], r);
    forall st ensures Puts(s, r, Is(v), true, st) {
      AbsTwo(s[0], s[1], st);
    }
    LeavesFirst(s, r, Is(v), used);
    forall st, p ensures ComputesAt(s, r, used, Value(Imm(v), env, p), st, p) {
      ExecTwo(s[0], s[1], st, p);
    }
  }

  lemma LoadlenComputes(r: nat, used: Used, env: Env)
    requires r < MEMWORDS && !used[r]
    ensures Computes([Stmt(LdLen, 0), Stmt(St, r)], r, used, PktLen, env)
  {
    var s := [Stmt(LdLen, 0), Stmt(St, r)];
    MadeLoad(s[0], r);
    forall st ensures Puts(s, r, Varies, true, st) {
      AbsTwo(s[0], s[1], st);
    }
    LeavesFirst(s, r, Varies, used);
    forall st, p ensures ComputesAt(s, r, used, Value(PktLen, env, p), st, p) {
      ExecTwo(s[0], s[1], st, p);
    }
  }

  lemma NegComputes(s: seq<Stmt>, r: nat, used: Used, e: Arith, env: Env)
    requires Computes(s, r, used, e, env)
    ensures Computes(s + [Stmt(LdMem, r), Stmt(Neg, 0), Stmt(St, r)], r, used, Minus(e), env)
  {
    var t := [Stmt(LdMem, r), Stmt(Neg, 0), Stmt(St, r)];
    MadeNeg(s, r);
    var v := Kind(e);
    forall st: AbsStore | st[r] == v ensures Puts(t, r, AbsNeg(v), SteadyArith(e), st) {
      AbsThree(t[0], t[1], t[2], st);
    }
    LeavesMore(s, r, v, r, v, used, SteadyArith(e), t, r, AbsNeg(v), SteadyArith(e));
    forall st, p ensures ComputesAt(s + t, r, used, Value(Minus(e), env, p), st, p) {
      ExecListAppend(s, t, st, p);
      assert ComputesAt(s, r, used, Value(e, env, p), st, p);
      match ExecList(s, st, p) {
        case None =>
        case Some(st1) => ExecThree(t[0], t[1], t[2], st1, p);
      }
    }
  }

  /** Both operands, left in their registers: the left one survives the code of the
      right one. */
  ghost predicate ComputesBoth(s: seq<Stmt>, rl: nat, rr: nat, used: Used, l: Arith, r: Arith, env: Env) {
    && rl < MEMWORDS && rr < MEMWORDS && WellMade(s, {rl, rr})
    && |s| <= CodeSize(l) + CodeSize(r) &&
      LeavesKinds(s, rl, Kind(l), rr, Kind(r), used, SteadyArith(l) && SteadyArith(r))
    && forall st, p {:trigger ExecList(s, st, p)} :: BothAt(s, rl, rr, used, Value(l, env, p), Value(r, env, p), st, p)
  }

  ghost predicate BothAt(s: seq<Stmt>, rl: nat, rr: nat, used: Used, x: Option<Word>, y: Option<Word>, st: Store,
                         p: Packet)
    requires rl < MEMWORDS && rr < MEMWORDS
  {
    match ExecList(s, st, p)
    case None => x == None || y == None
    case Some(st1) =>
      && x == Some(st1[rl]) && y == Some(st1[rr])
      && forall r :: 0 <= r < MEMWORDS && used[r] ==> st1[r] == st[r]
  }

  lemma TwoOperands(s0: seq<Stmt>, rl: nat, s1: seq<Stmt>, rr: nat, used: Used, l: Arith, r: Arith, env: Env)
    requires Computes(s0, rl, used, l, env) && Computes(s1, rr, used[rl := true], r, env)
    ensures ComputesBoth(s0 + s1, rl, rr, used, l, r, env)
  {
    MadeAppend(s0, {rl}, s1, {rr});
    assert {rl} + {rr} == {rl, rr};
    LeavesBoth(s0, rl, Kind(l), s1, rr, Kind(r), used, SteadyArith(l), SteadyArith(r));
    forall st, p ensures BothAt(s0 + s1, rl, rr, used, Value(l, env, p), Value(r, env, p), st, p) {
      ExecListAppend(s0, s1, st, p);
      assert ComputesAt(s0, rl, used, Value(l, env, p), st, p);
      match ExecList(s0, st, p) {
        case None =>
        case Some(st1) => assert ComputesAt(s1, rr, used[rl := true], Value(r, env, p), st1, p);
      }
    }
  }

  /** Fetches both operands and applies the operation: `A` holds the result. */
  lemma OperateAt(rl: nat, rr: nat, op: AluOp, st: Store, p: Packet)
    requires rl < MEMWORDS && rr < MEMWORDS
    ensures
      var t := [Stmt(LdxMem, rr), Stmt(LdMem, rl), Stmt(AluX(op), 0)];
      match Alu(op, st[rl], st[rr])
      case None => ExecList(t, st, p) == None
      case Some(v) => ExecList(t, st, p) == Some(st[X := st[rr]][A := v])
  {
    var t := [Stmt(LdxMem, rr), Stmt(LdMem, rl), Stmt(AluX(op), 0)];
    ExecThree(t[0], t[1], t[2], st, p);
    match Alu(op, st[rl], st[rr]) {
      case None =>
      case Some(v) => assert st[X := st[rr]][A := st[rl]][A := v] == st[X := st[rr]][A := v];
    }
  }

  lemma BinLeaves(s: seq<Stmt>, rl: nat, rr: nat, used: Used, op: AluOp, l: Arith, r: Arith, n: nat)
    requires LeavesKinds(s, rl, Kind(l), rr, Kind(r), used, SteadyArith(l) && SteadyArith(r))
    requires rl < MEMWORDS && rr < MEMWORDS && n < MEMWORDS && !used[n]
    ensures
      var t := [Stmt(LdxMem, rr), Stmt(LdMem, rl), Stmt(AluX(op), 0)];
      var v := Kind(Bin(op, l, r));
      LeavesKinds(s + t + [Stmt(St, n)], n, v, n, v, used, SteadyArith(Bin(op, l, r)))
  {
    var t, u := [Stmt(LdxMem, rr), Stmt(LdMem, rl), Stmt(AluX(op), 0)], [Stmt(St, n)];
    var v, steady := Kind(Bin(op, l, r)), SteadyArith(Bin(op, l, r));
    forall st: AbsStore | st[rl] == Kind(l) && st[rr] == Kind(r) ensures Puts(t + u, n, v, steady, st) {
      AbsAppend(t, u, st);
      AbsThree(t[0], t[1], t[2], st);
      AbsOne(u[0], AbsRun(t, st));
    }
    LeavesMore(s, rl, Kind(l), rr, Kind(r), used, SteadyArith(l) && SteadyArith(r), t + u, n, v, steady);
    assert s + (t + u) == s + t + u;
  }

  lemma BinComputes(s: seq<Stmt>, rl: nat, rr: nat, used: Used, op: AluOp, l: Arith, r: Arith, env: Env, n: nat)
    requires ComputesBoth(s, rl, rr, used, l, r, env) && n < MEMWORDS && !used[n]
    ensures Computes(s + [Stmt(LdxMem, rr), Stmt(LdMem, rl), Stmt(AluX(op), 0)] + [Stmt(St, n)], n, used,
                     Bin(op, l, r), env)
  {
    var t := [Stmt(LdxMem, rr), Stmt(LdMem, rl), Stmt(AluX(op), 0)];
    MadeOperate(s, rl, rr, op);
    MadeStore(s + t, n);
    BinLeaves(s, rl, rr, used, op, l, r, n);
    forall st, p ensures ComputesAt(s + t + [Stmt(St, n)], n, used, Value(Bin(op, l, r), env, p), st, p) {
      assert BothAt(s, rl, rr, used, Value(l, env, p), Value(r, env, p), st, p);
      OperateStore(s, rl, rr, used, op, Value(l, env, p), Value(r, env, p), n, st, p);
    }
  }

  /** One run of the operation's code. */
  lemma OperateStore(s: seq<Stmt>, rl: nat, rr: nat, used: Used, op: AluOp, x: Option<Word>, y: Option<Word>, n: nat,
                     st: Store, p: Packet)
    requires rl < MEMWORDS && rr < MEMWORDS && n < MEMWORDS && !used[n] && BothAt(s, rl, rr, used, x, y, st, p)
    ensures
      var t := [Stmt(LdxMem, rr), Stmt(LdMem, rl), Stmt(AluX(op), 0)];
      ComputesAt(s + t + [Stmt(St, n)], n, used, if x.Some? && y.Some? then Alu(op, x.value, y.value) else None, st, p)
  {
    var t := [Stmt(LdxMem, rr), Stmt(LdMem, rl), Stmt(AluX(op), 0)];
    ExecListAppend(s + t, [Stmt(St, n)], st, p);
    ExecListAppend(s, t, st, p);
    match ExecList(s, st, p) {
      case None =>
      case Some(st1) =>
        OperateAt(rl, rr, op, st1, p);
        if ExecList(t, st1, p).Some? {
          ExecOne(Stmt(St, n), ExecList(t, st1, p).value, p);
        }
    }
  }

  /** Where the item at an offset held in a register is loaded from. */
  function ItemCode(proto: Proto, r: nat, size: Size, env: Env): seq<Stmt>
    requires r < MEMWORDS
  {
    match proto
    case QLink => [Stmt(LdxMem, r), Stmt(LdInd(size), 0)]
    case QNet(_) => [Stmt(LdxMem, r), Stmt(LdInd(size), env.offNl)]
    case QTran(_) =>
      [Stmt(LdxMsh, env.offNl), Stmt(LdMem, r)] + [Stmt(AluX(Add), 0), Stmt(Tax, 0), Stmt(LdInd(size), env.offNl)]
  }

  lemma ItemLeaves(proto: Proto, r: nat, size: nat, env: Env, st: Store, p: Packet)
    requires r < MEMWORDS
    ensures
      match ExecList(ItemCode(proto, r, SizeOf(size), env), st, p)
      case None => ItemAt(proto, st[r], size, env, p) == None
      case Some(st1) =>
        && ItemAt(proto, st[r], size, env, p) == Some(st1[A])
        && forall i :: 0 <= i < MEMWORDS ==> st1[i] == st[i]
  {
    if proto.QTran? {
      TranItem(r, size, env, st, p);
    } else {
      var k := if proto.QLink? then 0 else env.offNl;
      assert proto.QLink? ==> Wrap(st[r] + k) == st[r];
      DirectItem(r, SizeOf(size), k, st, p);
      assert ItemCode(proto, r, SizeOf(size), env) == [Stmt(LdxMem, r), Stmt(LdInd(SizeOf(size)), k)];
      assert ItemAt(proto, st[r], size, env, p) == Load(p, Wrap(st[r] + k), SizeOf(size));
    }
  }

  lemma DirectItem(r: nat, size: Size, k: Word, st: Store, p: Packet)
    requires r < MEMWORDS
    ensures
      var t := [Stmt(LdxMem, r), Stmt(LdInd(size), k)];
      match ExecList(t, st, p)
      case None => Load(p, Wrap(st[r] + k), size) == None
      case Some(st1) =>
        Load(p, Wrap(st[r] + k), size) == Some(st1[A]) && forall i :: 0 <= i < MEMWORDS ==> st1[i] == st[i]
  {
    ExecTwo(Stmt(LdxMem, r), Stmt(LdInd(size), k), st, p);
  }

  lemma TranItem(r: nat, size: nat, env: Env, st: Store, p: Packet)
    requires r < MEMWORDS
    ensures
      var t := [Stmt(LdxMsh, env.offNl), Stmt(LdMem, r)] + [Stmt(AluX(Add), 0), Stmt(Tax, 0),
                                                            Stmt(LdInd(SizeOf(size)), env.offNl)];
      match Ihl(env, p)
      case None => ExecList(t, st, p) == None
      case Some(x) =>
        match Load(p, Wrap(Wrap(st[r] + x) + env.offNl), SizeOf(size))
        case None => ExecList(t, st, p) == None
        case Some(v) =>
          && ExecList(t, st, p).Some? && ExecList(t, st, p).value[A] == v
          && forall i :: 0 <= i < MEMWORDS ==> ExecList(t, st, p).value[i] == st[i]
  {
    var t0 := [Stmt(LdxMsh, env.offNl), Stmt(LdMem, r)];
    var t1 := [Stmt(AluX(Add), 0), Stmt(Tax, 0), Stmt(LdInd(SizeOf(size)), env.offNl)];
    ExecListAppend(t0, t1, st, p);
    ExecTwo(t0[0], t0[1], st, p);
    if ExecList(t0, st, p).Some? {
      ExecThree(t1[0], t1[1], t1[2], ExecList(t0, st, p).value, p);
    }
  }

  lemma ItemPuts(proto: Proto, r: nat, size: Size, env: Env, n: nat, st: AbsStore)
    requires r < MEMWORDS && n < MEMWORDS
    ensures Puts(ItemCode(proto, r, size, env) + [Stmt(St, n)], n, Varies, true, st)
  {
    var t, u := ItemCode(proto, r, size, env), [Stmt(St, n)];
    AbsAppend(t, u, st);
    AbsOne(u[0], AbsRun(t, st));
    if proto.QTran? {
      AbsAppend(t[..2], t[2..], st);
      assert t[..2] == [t[0], t[1]] && t[2..] == [t[2], t[3], t[4]] && t[..2] + t[2..] == t;
      AbsTwo(t[0], t[1], st);
      AbsThree(t[2], t[3], t[4], AbsRun(t[..2], st));
    } else {
      assert t == [t[0], t[1]];
      AbsTwo(t[0], t[1], st);
    }
  }

  lemma ItemLeavesKind(s: seq<Stmt>, r: nat, used: Used, proto: Proto, at: Arith, size: nat, env: Env, n: nat)
    requires LeavesKinds(s, r, Kind(at), r, Kind(at), used, SteadyArith(at)) && r < MEMWORDS && n < MEMWORDS && !used[n]
    ensures
      LeavesKinds(s + ItemCode(proto, r, SizeOf(size), env) + [Stmt(St, n)], n, Varies, n, Varies, used,
                  SteadyArith(at))
  {
    var t, u := ItemCode(proto, r, SizeOf(size), env), [Stmt(St, n)];
    forall st ensures Puts(t + u, n, Varies, SteadyArith(at), st) {
      ItemPuts(proto, r, SizeOf(size), env, n, st);
    }
    LeavesMore(s, r, Kind(at), r, Kind(at), used, SteadyArith(at), t + u, n, Varies, SteadyArith(at));
    assert s + (t + u) == s + t + u;
  }

  lemma LoadComputes(s: seq<Stmt>, r: nat, used: Used, proto: Proto, at: Arith, size: nat, env: Env, n: nat)
    requires Computes(s, r, used, at, env) && n < MEMWORDS && !used[n] && SizeKnown(size)
    ensures Computes(s + ItemCode(proto, r, SizeOf(size), env) + [Stmt(St, n)], n, used, Index(proto, at, size), env)
  {
    var t := ItemCode(proto, r, SizeOf(size), env);
    MadeItem(s, proto, r, SizeOf(size), env);
    MadeStore(s + t, n);
    ItemLeavesKind(s, r, used, proto, at, size, env, n);
    forall st, p ensures ComputesAt(s + t + [Stmt(St, n)], n, used, Value(Index(proto, at, size), env, p), st, p) {
      ExecListAppend(s + t, [Stmt(St, n)], st, p);
      ExecListAppend(s, t, st, p);
      assert ComputesAt(s, r, used, Value(at, env, p), st, p);
      match ExecList(s, st, p) {
        case None =>
        case Some(st1) =>
          ItemLeaves(proto, r, size, env, st1, p);
          if ExecList(t, st1, p).Some? {
            ExecOne(Stmt(St, n), ExecList(t, st1, p).value, p);
          }
      }
    }
  }

  // ----- protocol checks

  function GuardSem(e: Arith, env: Env): Packet -> Outcome {
    p => Guard(e, env, p)
  }

  function ProtoSem(proto: Proto, env: Env): Packet -> Outcome {
    match proto
    case QLink => TrueSem()
    case QNet(t) => LinkTypeSem(env, t)
    case QTran(n) => AndSem(IpProtoSem(env, n), FirstFragSem(env))
  }

  function TrueSem(): Packet -> Outcome {
    p => Accept
  }

  lemma LinkTypeSemIs(env: Env, t: EtherType)
    ensures Agree(LinkTypeSem(env, t), LinkTypeIs(env, t))
  {
  }

  function LinkTypeIs(env: Env, t: EtherType): Packet -> Outcome {
    p => LinkTypeMeaning(env, t, p)
  }

  lemma ProtoSemIs(proto: Proto, env: Env, p: Packet)
    ensures ProtoSem(proto, env)(p) == ProtoMeaning(proto, env, p)
  {
    match proto {
      case QLink =>
      case QNet(t) => LinkTypeSemIs(env, t); assert LinkTypeIs(env, t)(p) == LinkTypeMeaning(env, t, p);
      case QTran(n) =>
        LinkTypeSemIs(env, EtherIp);
        assert LinkTypeIs(env, EtherIp)(p) == LinkTypeMeaning(env, EtherIp, p);
        var s, t := LinkTypeSem(env, EtherIp), FieldSem(env, OrNet, 9, ByteSize, Equals(n));
        assert AndSem(s, t)(p) == And3(s(p), t(p));
        assert AndSem(IpProtoSem(env, n), FirstFragSem(env))(p) == And3(IpProtoSem(env, n)(p), FirstFragSem(env)(p));
    }
  }

  lemma GuardOfIndex(proto: Proto, at: Arith, size: nat, env: Env)
    ensures Agree(AndSem(GuardSem(at, env), ProtoSem(proto, env)), GuardSem(Index(proto, at, size), env))
  {
    var s, t := GuardSem(at, env), ProtoSem(proto, env);
    forall p ensures AndSem(s, t)(p) == GuardSem(Index(proto, at, size), env)(p) {
      ProtoSemIs(proto, env, p);
      assert s(p) == Guard(at, env, p);
    }
  }

  /** A pending expression, or none (-1) where the meaning is always yes. */
  ghost predicate Checks(m: Mem, lo: nat, b: int, P: Pend, sem: Packet -> Outcome) {
    lo <= |m| && if b < 0 then Agree(TrueSem(), sem) else Stands(m, lo, b, P, sem)
  }

  lemma ChecksEq(m: Mem, lo: nat, b: int, P: Pend, s: Packet -> Outcome, t: Packet -> Outcome)
    requires Checks(m, lo, b, P, s) && Agree(s, t)
    ensures Checks(m, lo, b, P, t)
  {
    if b >= 0 {
      StandsEq(m, lo, b, P, s, t);
    } else {
      forall p ensures TrueSem()(p) == t(p) {
        assert s(p) == t(p);
      }
    }
  }

  lemma ChecksKept(m: Mem, m': Mem, lo: nat, b: int, P: Pend, sem: Packet -> Outcome)
    requires Checks(m, lo, b, P, sem) && Kept(m, m', |m|)
    ensures Checks(m', lo, b, P, sem)
  {
    if b >= 0 {
      StandsKept(m, m', lo, b, P, sem);
    }
  }

  lemma ChecksLower(m: Mem, lo: nat, mid: nat, b: int, P: Pend, sem: Packet -> Outcome)
    requires Checks(m, mid, b, P, sem) && lo <= mid
    ensures Checks(m, lo, b, P, sem)
  {
    if b >= 0 {
      StandsLower(m, lo, mid, b, P, sem);
    }
  }

  lemma NoLeftCheck(s0: Packet -> Outcome, s1: Packet -> Outcome)
    requires Agree(TrueSem(), s0)
    ensures Agree(s1, AndSem(s0, s1))
  {
    forall p ensures s1(p) == AndSem(s0, s1)(p) {
      assert TrueSem()(p) == s0(p);
    }
  }

  lemma NoRightCheck(s0: Packet -> Outcome, s1: Packet -> Outcome)
    requires Agree(TrueSem(), s1)
    ensures Agree(s0, AndSem(s0, s1))
  {
    forall p ensures s0(p) == AndSem(s0, s1)(p) {
      assert TrueSem()(p) == s1(p);
    }
  }

  /** Blocks from `hi` on are as they were. */
  ghost predicate Above(m: Mem, m': Mem, hi: nat) {
    |m'| == |m| && forall a {:trigger m'[a]} :: hi <= a < |m| ==> m'[a] == m[a]
  }

  lemma StandsAbove(m: Mem, m': Mem, hi: nat, b: nat, P: Pend, sem: Packet -> Outcome)
    requires Stands(m, hi, b, P, sem) && Above(m, m', hi)
    ensures Stands(m', hi, b, P, sem)
  {
    Open(m, hi, b, P, sem);
    PendingSame(m, m', b, P, Upto(hi));
  }

  // ----- what a comparison tests

  function CompareSem(op: JmpOp, l: Arith, r: Arith, env: Env): Packet -> Outcome {
    p => CompareMeaning(op, l, r, env, p)
  }

  function CompareMeaning(op: JmpOp, l: Arith, r: Arith, env: Env, p: Packet): Outcome {
    match Value(l, env, p)
    case None => Abort
    case Some(x) =>
      match Value(r, env, p)
      case None => Abort
      case Some(y) => Decide(Compare(op, x, y))
  }

  function RelationSem(op: JmpOp, l: Arith, r: Arith, reversed: bool, env: Env): Packet -> Outcome {
    p => RelMeaning(op, l, r, reversed, env, p)
  }

  /** The statements that fetch the operands; equality is tested by subtracting. */
  function Fetch(op: JmpOp, rl: nat, rr: nat): seq<Stmt>
    requires rl < MEMWORDS && rr < MEMWORDS
  {
    if op.Jeq? then [Stmt(LdxMem, rr), Stmt(LdMem, rl), Stmt(AluX(Sub), 0)]
    else [Stmt(LdxMem, rr), Stmt(LdMem, rl)]
  }

  function Branch(op: JmpOp): Code {
    if op.Jeq? then JmpK(Jeq) else JmpX(op)
  }

  lemma SubtractTests(x: Word, y: Word)
    ensures Wrap(x as int - y as int) == 0 <==> x == y
  {
  }

  lemma FetchTests(op: JmpOp, rl: nat, rr: nat, st: Store, p: Packet)
    requires rl < MEMWORDS && rr < MEMWORDS
    ensures TestMeaning(Fetch(op, rl, rr), Stmt(Branch(op), 0), st, p) == Decide(Compare(op, st[rl], st[rr]))
  {
    var t := Fetch(op, rl, rr);
    if op.Jeq? {
      OperateAt(rl, rr, Sub, st, p);
      SubtractTests(st[rl], st[rr]);
    } else {
      ExecTwo(t[0], t[1], st, p);
    }
  }

  /** Code that has put a branch's operands in place may end in it. */
  lemma MadeTest(s: seq<Stmt>, D: set<nat>, b: Stmt)
    requires WellMade(s, D) && TwoWay(b) && Uses(b) <= D
    ensures TestBlock(s, b)
  {
    assert Opened(Key);
  }

  lemma RelationBlock(s: seq<Stmt>, rl: nat, rr: nat, op: JmpOp)
    requires WellMade(s, {rl, rr}) && rl < MEMWORDS && rr < MEMWORDS
    ensures TestBlock(s + Fetch(op, rl, rr), Stmt(Branch(op), 0))
  {
    if op.Jeq? {
      MadeOperate(s, rl, rr, Sub);
      MadeTest(s + Fetch(op, rl, rr), {A}, Stmt(Branch(op), 0));
    } else {
      MadeFetch(s, rl, rr);
      MadeTest(s + Fetch(op, rl, rr), {A, X}, Stmt(Branch(op), 0));
    }
  }

  lemma FetchCalm(op: JmpOp, rl: nat, rr: nat)
    requires rl < MEMWORDS && rr < MEMWORDS
    ensures |Fetch(op, rl, rr)| <= 3 && Calm(Fetch(op, rl, rr))
  {
    forall k | 0 <= k < |Fetch(op, rl, rr)| ensures !Risky(Fetch(op, rl, rr)[k]) {
    }
  }

  lemma SteadyRelation(s: seq<Stmt>, rl: nat, rr: nat, used: Used, l: Arith, r: Arith, op: JmpOp)
    requires LeavesKinds(s, rl, Kind(l), rr, Kind(r), used, SteadyArith(l) && SteadyArith(r)) && rl < MEMWORDS &&
      rr < MEMWORDS
    ensures SteadyArith(l) && SteadyArith(r) ==> Steady(s + Fetch(op, rl, rr))
  {
    FetchCalm(op, rl, rr);
    if SteadyArith(l) && SteadyArith(r) {
      LeavesSteady(s, rl, Kind(l), rr, Kind(r), used, true, Fetch(op, rl, rr));
    }
  }

  lemma RelationTests(s: seq<Stmt>, rl: nat, rr: nat, used: Used, op: JmpOp, l: Arith, r: Arith, env: Env, st: Store,
                      p: Packet)
    requires ComputesBoth(s, rl, rr, used, l, r, env)
    ensures CompareSem(op, l, r, env)(p) == TestMeaning(s + Fetch(op, rl, rr), Stmt(Branch(op), 0), st, p)
  {
    var t := Fetch(op, rl, rr);
    ExecListAppend(s, t, st, p);
    assert BothAt(s, rl, rr, used, Value(l, env, p), Value(r, env, p), st, p);
    match ExecList(s, st, p) {
      case None =>
      case Some(st1) => FetchTests(op, rl, rr, st1, p);
    }
  }

  lemma RelationIs(op: JmpOp, l: Arith, r: Arith, reversed: bool, env: Env)
    ensures
      var c := CompareSem(op, l, r, env);
      Agree(AndSem(AndSem(GuardSem(l, env), GuardSem(r, env)), if reversed then NotSem(c) else c),
            RelationSem(op, l, r, reversed, env))
  {
    var c := CompareSem(op, l, r, env);
    var d := if reversed then NotSem(c) else c;
    var g0, g1 := GuardSem(l, env), GuardSem(r, env);
    forall p ensures AndSem(AndSem(g0, g1), d)(p) == RelationSem(op, l, r, reversed, env)(p) {
      assert c(p) == CompareMeaning(op, l, r, env, p);
      assert d(p) == if reversed then Not3(c(p)) else c(p);
      assert AndSem(g0, g1)(p) == And3(Guard(l, env, p), Guard(r, env, p));
      assert AndSem(AndSem(g0, g1), d)(p) == And3(AndSem(g0, g1)(p), d(p));
    }
  }

  // ----- the generator's routines

  class ArithCode {
    const gen: CodeGen
    const regs: Registers

    constructor (gen: CodeGen)
      ensures this.gen == gen && fresh(regs) && fresh(regs.regused) && regs.Valid()
      ensures regs.regused[..] == seq(MEMWORDS, i => false)
    {
      this.gen := gen;
      regs := new Registers();
    }

    method GenLoadi(v: Word, ghost env: Env) returns (r: Option<Arth>)
      requires regs.Valid()
      modifies regs, regs.regused
      ensures regs.Valid()
      ensures r == None <==> Free(old(regs.regused[..])) == 0
      ensures r.Some? ==> fresh(r.value) && r.value.b == -1 && Holding(r.value, Imm(v), env, old(regs.regused[..]))
    {
      var reg := regs.AllocReg();
      if reg == None {
        return None;
      }
      LoadiComputes(v, reg.value, old(regs.regused[..]), env);
      var a := new Arth([Stmt(LdImm, v), Stmt(St, reg.value)], reg.value);
      r := Some(a);
    }

    method GenLoadlen(ghost env: Env) returns (r: Option<Arth>)
      requires regs.Valid()
      modifies regs, regs.regused
      ensures regs.Valid()
      ensures r == None <==> Free(old(regs.regused[..])) == 0
      ensures r.Some? ==> fresh(r.value) && r.value.b == -1 && Holding(r.value, PktLen, env, old(regs.regused[..]))
    {
      var reg := regs.AllocReg();
      if reg == None {
        return None;
      }
      LoadlenComputes(reg.value, old(regs.regused[..]), env);
      var a := new Arth([Stmt(LdLen, 0), Stmt(St, reg.value)], reg.value);
      r := Some(a);
    }

    /** The code of `a` computes `e`; of the registers, those that were in use before
        it was generated and the one it leaves its value in are taken. */
    ghost predicate Holding(a: Arth, e: Arith, env: Env, used: Used)
      reads a, regs, regs.regused
    {
      && regs.Valid()
      && Computes(a.s, a.regno, used, e, env)
      && regs.regused[..] == used[a.regno := true]
    }

    method GenNeg(a: Arth, ghost e: Arith, ghost env: Env, ghost used: Used)
      requires Holding(a, e, env, used)
      modifies a`s
      ensures Holding(a, Minus(e), env, used)
    {
      NegComputes(a.s, a.regno, used, e, env);
      a.s := a.s + [Stmt(LdMem, a.regno), Stmt(Neg, 0), Stmt(St, a.regno)];
    }

    /** Replaces an offset by the item at that offset in the header of a protocol. The
        new register is taken before the offset's is given back. */
    method GenLoad(proto: Proto, index: Arth, size: nat, ghost at: Arith, ghost env: Env, ghost used: Used,
                   ghost P0: Pend, ghost lo: nat) returns (ok: bool, ghost P: Pend)
      requires env == gen.env && Holding(index, at, env, used)
      requires Checks(gen.pool.blk, lo, index.b, P0, GuardSem(at, env))
      modifies index, gen.pool, regs, regs.regused
      ensures regs.Valid()
      ensures ok <==> Free(used) > 1 && SizeKnown(size) && (proto.QNet? ==> LinkTypeKnown(env, proto.ether))
      ensures ok ==> Holding(index, Index(proto, at, size), env, used)
      ensures ok ==> Checks(gen.pool.blk, lo, index.b, P, GuardSem(Index(proto, at, size), env))
      ensures Kept(old(gen.pool.blk), gen.pool.blk, lo)
      ensures Grew(old(gen.pool.blk), gen.pool.blk, 24, true)
    {
      P := P0;
      FreeTaken(used, index.regno);
      var n := regs.AllocReg();
      if n == None {
        return false, P;
      }
      regs.FreeReg(index.regno);
      if !SizeKnown(size) || (proto.QNet? && !LinkTypeKnown(gen.env, proto.ether)) {
        return false, P;
      }
      ok := true;
      LoadComputes(index.s, index.regno, used, proto, at, size, env, n.value);
      index.s := index.s + ItemCode(proto, index.regno, SizeOf(size), gen.env) + [Stmt(St, n.value)];
      index.regno := n.value;
      assert regs.regused[..] == used[n.value := true];
      index.b, P := GenProtoChecks(proto, index.b, P0, GuardSem(at, env), lo);
      GuardOfIndex(proto, at, size, env);
      ChecksEq(gen.pool.blk, lo, index.b, P, AndSem(GuardSem(at, env), ProtoSem(proto, env)),
               GuardSem(Index(proto, at, size), env));
    }

    /** Adds the checks that the packet carries a protocol. */
    method GenProtoChecks(proto: Proto, b0: int, ghost P0: Pend, ghost s0: Packet -> Outcome, ghost lo: nat)
      returns (b: int, ghost P: Pend)
      requires Checks(gen.pool.blk, lo, b0, P0, s0)
      requires proto.QNet? ==> LinkTypeKnown(gen.env, proto.ether)
      modifies gen.pool
      ensures Checks(gen.pool.blk, lo, b, P, AndSem(s0, ProtoSem(proto, gen.env)))
      ensures Kept(old(gen.pool.blk), gen.pool.blk, lo)
      ensures Grew(old(gen.pool.blk), gen.pool.blk, 24, true)
    {
      ghost var m := gen.pool.blk;
      if proto.QLink? {
        NoRightCheck(s0, TrueSem());
        ChecksEq(gen.pool.blk, lo, b0, P0, s0, AndSem(s0, TrueSem()));
        return b0, P0;
      }
      ghost var s1 := ProtoSem(proto, gen.env);
      b, P := GenProtoAbbrev(proto);
      P := AndChecks(b0, b, P0, P, s0, s1, lo, m);
    }

    method GenProtoAbbrev(proto: Proto) returns (b: nat, ghost P: Pend)
      requires !proto.QLink? && (proto.QNet? ==> LinkTypeKnown(gen.env, proto.ether))
      modifies gen.pool
      ensures Stands(gen.pool.blk, |old(gen.pool.blk)|, b, P, ProtoSem(proto, gen.env))
      ensures Kept(old(gen.pool.blk), gen.pool.blk, |old(gen.pool.blk)|)
      ensures Grew(old(gen.pool.blk), gen.pool.blk, 24, true)
    {
      if proto.QNet? {
        b, P := gen.GenLinktype(proto.ether);
      } else {
        ghost var lo, m0, e := |gen.pool.blk|, gen.pool.blk, gen.env;
        var b0, P0 := gen.GenIpProto(proto.ipproto);
        ghost var m := gen.pool.blk;
        b, P := gen.GenIpfrag();
        P := gen.AndNext(b0, b, P0, P, IpProtoSem(e, proto.ipproto), FirstFragSem(e), lo, m);
        KeptTrans(m0, m, gen.pool.blk, lo, lo);
      }
    }

    /** Puts earlier checks, if any, in front of an expression generated after them. */
    method AndChecks(b0: int, b1: nat, ghost P0: Pend, ghost P1: Pend, ghost s0: Packet -> Outcome,
                     ghost s1: Packet -> Outcome, ghost lo: nat, ghost m: Mem) returns (ghost P: Pend)
      requires Checks(m, lo, b0, P0, s0) && Stands(gen.pool.blk, |m|, b1, P1, s1) && Kept(m, gen.pool.blk, |m|)
      modifies gen.pool
      ensures Stands(gen.pool.blk, lo, b1, P, AndSem(s0, s1)) && Kept(m, gen.pool.blk, lo)
      ensures Grew(old(gen.pool.blk), gen.pool.blk, 0, true)
    {
      if b0 >= 0 {
        P := gen.AndNext(b0, b1, P0, P1, s0, s1, lo, m);
      } else {
        P := P1;
        NoLeftCheck(s0, s1);
        StandsLower(gen.pool.blk, lo, |m|, b1, P, s1);
        StandsEq(gen.pool.blk, lo, b1, P, s1, AndSem(s0, s1));
      }
    }

    /** The left operand's record is reused for the result. */
    method GenArth(op: AluOp, a0: Arth, a1: Arth, ghost l: Arith, ghost r: Arith, ghost env: Env, ghost used: Used)
      requires a0 != a1 && regs.Valid()
      requires Computes(a0.s, a0.regno, used, l, env)
      requires Holding(a1, r, env, used[a0.regno := true])
      modifies a0`s, a0`regno, regs, regs.regused
      ensures Holding(a0, Bin(op, l, r), env, used)
    {
      var rl, rr := a0.regno, a1.regno;
      TwoOperands(a0.s, rl, a1.s, rr, used, l, r, env);
      a0.s := a0.s + a1.s + [Stmt(LdxMem, rr), Stmt(LdMem, rl), Stmt(AluX(op), 0)];
      regs.FreeReg(rl);
      regs.FreeReg(rr);
      assert regs.regused[..] == used;
      FreeOne(used, rl);
      var n := regs.AllocReg();
      BinComputes(old(a0.s) + a1.s, rl, rr, used, op, l, r, env, n.value);
      a0.regno := n.value;
      a0.s := a0.s + [Stmt(St, n.value)];
    }

    /** A block that compares two computed values, behind the protocol checks of both;
        their registers are given back. The left operand and its checks were generated
        when memory was `m`. */
    method GenRelation(op: JmpOp, a0: Arth, a1: Arth, reversed: bool, ghost l: Arith, ghost r: Arith, ghost env: Env,
                       ghost used: Used, ghost P0: Pend, ghost P1: Pend, ghost lo: nat, ghost m: Mem)
      returns (b: nat, ghost P: Pend)
      requires regs.Valid() && Computes(a0.s, a0.regno, used, l, env) && Holding(a1, r, env, used[a0.regno := true])
      requires Checks(m, lo, a0.b, P0, GuardSem(l, env)) && Kept(m, gen.pool.blk, |m|)
      requires Checks(gen.pool.blk, |m|, a1.b, P1, GuardSem(r, env))
      modifies gen.pool, regs.regused
      ensures regs.Valid() && regs.regused[..] == used
      ensures Stands(gen.pool.blk, lo, b, P, RelationSem(op, l, r, reversed, env))
      ensures Kept(m, gen.pool.blk, lo)
      ensures Grew(old(gen.pool.blk), gen.pool.blk, CodeSize(l) + CodeSize(r) + 6, SteadyArith(l) && SteadyArith(r))
    {
      ghost var m1 := gen.pool.blk;
      ghost var c := CompareSem(op, l, r, env);
      ghost var d := if reversed then NotSem(c) else c;
      b, P := GenComparison(op, a0, a1, reversed, l, r, env, used);
      regs.FreeReg(a0.regno);
      regs.FreeReg(a1.regno);
      assert regs.regused[..] == used;
      var tmp, T := GenGuards(a0.b, a1.b, P0, P1, GuardSem(l, env), GuardSem(r, env), lo, m, m1, b, P, d);
      P := AndTests(tmp, b, T, P, AndSem(GuardSem(l, env), GuardSem(r, env)), d, lo, |m1|);
      KeptTrans(m, old(gen.pool.blk), gen.pool.blk, lo, lo);
      RelationIs(op, l, r, reversed, env);
      StandsEq(gen.pool.blk, lo, b, P, AndSem(AndSem(GuardSem(l, env), GuardSem(r, env)), d),
               RelationSem(op, l, r, reversed, env));
    }

    /** The block itself, before any checks. */
    method GenComparison(op: JmpOp, a0: Arth, a1: Arth, reversed: bool, ghost l: Arith, ghost r: Arith, ghost env: Env,
                         ghost used: Used) returns (b: nat, ghost P: Pend)
      requires Computes(a0.s, a0.regno, used, l, env) && Computes(a1.s, a1.regno, used[a0.regno := true], r, env)
      modifies gen.pool
      ensures Stands(gen.pool.blk, |old(gen.pool.blk)|, b, P,
                     if reversed then NotSem(CompareSem(op, l, r, env)) else CompareSem(op, l, r, env))
      ensures Kept(old(gen.pool.blk), gen.pool.blk, |old(gen.pool.blk)|)
      ensures Grew(old(gen.pool.blk), gen.pool.blk, CodeSize(l) + CodeSize(r) + 6, SteadyArith(l) && SteadyArith(r))
    {
      ghost var lo := |gen.pool.blk|;
      var s, rl, rr := a0.s + a1.s, a0.regno, a1.regno;
      TwoOperands(a0.s, rl, a1.s, rr, used, l, r, env);
      forall st, p
        ensures CompareSem(op, l, r, env)(p) == TestMeaning(s + Fetch(op, rl, rr), Stmt(Branch(op), 0), st, p) {
        RelationTests(s, rl, rr, used, op, l, r, env, st, p);
      }
      RelationBlock(s, rl, rr, op);
      SteadyRelation(s, rl, rr, used, l, r, op);
      FetchCalm(op, rl, rr);
      b, P := gen.Test(Branch(op), 0, s + Fetch(op, rl, rr), CompareSem(op, l, r, env));
      if reversed {
        P := gen.Not(b, P, CompareSem(op, l, r, env), lo);
      }
    }

    /** The checks of both operands, while `b` stands above them. */
    method GenGuards(b0: int, b1: int, ghost P0: Pend, ghost P1: Pend, ghost s0: Packet -> Outcome,
                     ghost s1: Packet -> Outcome,
                     ghost lo: nat, ghost m: Mem, ghost m1: Mem, ghost b: nat, ghost P: Pend,
                     ghost d: Packet -> Outcome)
      returns (tmp: int, ghost T: Pend)
      requires Checks(m, lo, b0, P0, s0) && Kept(m, m1, |m|) && Checks(m1, |m|, b1, P1, s1)
      requires Kept(m1, gen.pool.blk, |m1|) && Stands(gen.pool.blk, |m1|, b, P, d)
      modifies gen.pool
      ensures Checks(gen.pool.blk, lo, tmp, T, AndSem(s0, s1)) && (tmp >= 0 ==> forall a :: a in T.f.nodes ==> a < |m1|)
      ensures Stands(gen.pool.blk, |m1|, b, P, d)
      ensures Kept(m1, gen.pool.blk, lo)
      ensures Grew(old(gen.pool.blk), gen.pool.blk, 0, true)
    {
      ghost var m2 := gen.pool.blk;
      if b1 < 0 {
        tmp, T := b0, P0;
        NoRightCheck(s0, s1);
        ChecksKept(m, m1, lo, b0, P0, s0);
        ChecksBelow(m1, m2, lo, b0, P0, s0);
        ChecksEq(m2, lo, b0, P0, s0, AndSem(s0, s1));
      } else if b0 < 0 {
        tmp, T := b1, P1;
        NoLeftCheck(s0, s1);
        ChecksBelow(m1, m2, |m|, b1, P1, s1);
        ChecksLower(m2, lo, |m|, b1, P1, s1);
        ChecksEq(m2, lo, b1, P1, s1, AndSem(s0, s1));
      } else {
        Separate(m, m1, lo, b0, P0, s0, b1, P1, s1);
        ChecksKept(m, m1, lo, b0, P0, s0);
        ChecksBelow(m1, m2, lo, b0, P0, s0);
        ChecksBelow(m1, m2, |m|, b1, P1, s1);
        ChecksLower(m2, lo, |m|, b1, P1, s1);
        T := gen.And(b0, b1, P0, P1, s0, s1, lo);
        tmp := b1;
        StandsAbove(m2, gen.pool.blk, |m1|, b, P, d);
        KeptTrans(m1, m2, gen.pool.blk, lo, lo);
      }
    }

    /** Puts checks made of blocks below `mid` in front of an expression made of blocks
        from `mid` on. */
    method AndTests(b0: int, b1: nat, ghost P0: Pend, ghost P1: Pend, ghost s0: Packet -> Outcome,
                    ghost s1: Packet -> Outcome, ghost lo: nat, ghost mid: nat) returns (ghost P: Pend)
      requires Checks(gen.pool.blk, lo, b0, P0, s0) && (b0 >= 0 ==> forall a :: a in P0.f.nodes ==> a < mid)
      requires Stands(gen.pool.blk, mid, b1, P1, s1) && lo <= mid
      modifies gen.pool
      ensures Stands(gen.pool.blk, lo, b1, P, AndSem(s0, s1)) && Kept(old(gen.pool.blk), gen.pool.blk, lo)
      ensures Grew(old(gen.pool.blk), gen.pool.blk, 0, true)
    {
      StandsLower(gen.pool.blk, lo, mid, b1, P1, s1);
      if b0 >= 0 {
        Open(gen.pool.blk, mid, b1, P1, s1);
        P := gen.And(b0, b1, P0, P1, s0, s1, lo);
      } else {
        P := P1;
        NoLeftCheck(s0, s1);
        StandsEq(gen.pool.blk, lo, b1, P, s1, AndSem(s0, s1));
      }
    }

    // ----- whole expressions

    /** Compiles an expression, left operand first. It fails exactly when the
        expression is not a legal one or needs more registers than are free. */
    method Compile(e: Arith) returns (r: Option<Arth>, ghost P: Pend)
      requires regs.Valid()
      modifies gen.pool, regs, regs.regused
      ensures regs.Valid()
      ensures r.Some? <==> ArithKnown(e, gen.env) && Need(e) <= Free(old(regs.regused[..]))
      ensures r.Some? ==> fresh(r.value) && Holding(r.value, e, gen.env, old(regs.regused[..]))
      ensures r.Some? ==> Checks(gen.pool.blk, |old(gen.pool.blk)|, r.value.b, P, GuardSem(e, gen.env))
      ensures Kept(old(gen.pool.blk), gen.pool.blk, |old(gen.pool.blk)|)
      ensures Grew(old(gen.pool.blk), gen.pool.blk, CheckRoom(e), true)
      decreases e
    {
      P := Pend(Frag(map[], map[], 0, 0), [], []);
      NeedSome(e);
      match e {
        case Imm(v) =>
          r := GenLoadi(v, gen.env);
          NoChecks(e, gen.env);
        case PktLen =>
          r := GenLoadlen(gen.env);
          NoChecks(e, gen.env);
        case Minus(a) =>
          r, P := CompileMinus(a);
        case Index(proto, at, size) =>
          r, P := CompileIndex(proto, at, size);
        case Bin(op, left, right) =>
          r, P := CompileBin(op, left, right);
      }
    }

    method CompileMinus(a: Arith) returns (r: Option<Arth>, ghost P: Pend)
      requires regs.Valid()
      modifies gen.pool, regs, regs.regused
      ensures regs.Valid()
      ensures r.Some? <==> ArithKnown(a, gen.env) && Need(a) <= Free(old(regs.regused[..]))
      ensures r.Some? ==> fresh(r.value) && Holding(r.value, Minus(a), gen.env, old(regs.regused[..]))
      ensures r.Some? ==> Checks(gen.pool.blk, |old(gen.pool.blk)|, r.value.b, P, GuardSem(Minus(a), gen.env))
      ensures Kept(old(gen.pool.blk), gen.pool.blk, |old(gen.pool.blk)|)
      ensures Grew(old(gen.pool.blk), gen.pool.blk, CheckRoom(a), true)
      decreases Minus(a), 0
    {
      r, P := Compile(a);
      if r.Some? {
        GenNeg(r.value, a, gen.env, old(regs.regused[..]));
        SameGuard(a, Minus(a), gen.env);
        ChecksEq(gen.pool.blk, |old(gen.pool.blk)|, r.value.b, P, GuardSem(a, gen.env), GuardSem(Minus(a), gen.env));
      }
    }

    method CompileIndex(proto: Proto, at: Arith, size: nat) returns (r: Option<Arth>, ghost P: Pend)
      requires regs.Valid()
      modifies gen.pool, regs, regs.regused
      ensures regs.Valid()
      ensures r.Some? <==>
        ArithKnown(Index(proto, at, size), gen.env) && Need(Index(proto, at, size)) <= Free(old(regs.regused[..]))
      ensures r.Some? ==> fresh(r.value) && Holding(r.value, Index(proto, at, size), gen.env, old(regs.regused[..]))
      ensures r.Some? ==> Checks(gen.pool.blk, |old(gen.pool.blk)|, r.value.b, P,
                                 GuardSem(Index(proto, at, size), gen.env))
      ensures Kept(old(gen.pool.blk), gen.pool.blk, |old(gen.pool.blk)|)
      ensures Grew(old(gen.pool.blk), gen.pool.blk, CheckRoom(at) + 24, true)
      decreases Index(proto, at, size), 0
    {
      ghost var m0, lo := gen.pool.blk, |gen.pool.blk|;
      r, P := Compile(at);
      if r.Some? {
        ghost var m := gen.pool.blk;
        var ok;
        ok, P := GenLoad(proto, r.value, size, at, gen.env, old(regs.regused[..]), P, lo);
        KeptTrans(m0, m, gen.pool.blk, lo, lo);
        if !ok {
          r := None;
        }
      }
    }

    /** The checks of the right operand are compiled but left out of the result. */
    method CompileBin(op: AluOp, left: Arith, right: Arith) returns (r: Option<Arth>, ghost P: Pend)
      requires regs.Valid()
      modifies gen.pool, regs, regs.regused
      ensures regs.Valid()
      ensures r.Some? <==>
        ArithKnown(Bin(op, left, right), gen.env) && Need(Bin(op, left, right)) <= Free(old(regs.regused[..]))
      ensures r.Some? ==> fresh(r.value) && Holding(r.value, Bin(op, left, right), gen.env, old(regs.regused[..]))
      ensures r.Some? ==> Checks(gen.pool.blk, |old(gen.pool.blk)|, r.value.b, P,
                                 GuardSem(Bin(op, left, right), gen.env))
      ensures Kept(old(gen.pool.blk), gen.pool.blk, |old(gen.pool.blk)|)
      ensures Grew(old(gen.pool.blk), gen.pool.blk, CheckRoom(left) + CheckRoom(right), true)
      decreases Bin(op, left, right), 0
    {
      ghost var m0, lo, used := gen.pool.blk, |gen.pool.blk|, regs.regused[..];
      r, P := Compile(left);
      if r == None {
        return;
      }
      ghost var m := gen.pool.blk;
      FreeTaken(used, r.value.regno);
      var r1, P1 := Compile(right);
      KeptTrans(m0, m, gen.pool.blk, lo, |m|);
      if r1 == None {
        r := None;
        return;
      }
      Combine(op, r.value, r1.value, left, right, gen.env, used, P, lo, m);
    }

    /** Both operands' code put together, behind the checks of the left one. */
    method Combine(op: AluOp, a0: Arth, a1: Arth, ghost l: Arith, ghost r: Arith, ghost env: Env, ghost used: Used,
                   ghost P: Pend, ghost lo: nat, ghost m: Mem)
      requires a0 != a1 && regs.Valid() && Computes(a0.s, a0.regno, used, l, env) &&
        Holding(a1, r, env, used[a0.regno := true])
      requires Checks(m, lo, a0.b, P, GuardSem(l, env)) && Kept(m, gen.pool.blk, |m|)
      modifies a0`s, a0`regno, regs, regs.regused
      ensures Holding(a0, Bin(op, l, r), env, used) && Checks(gen.pool.blk, lo, a0.b, P, GuardSem(Bin(op, l, r), env))
    {
      GenArth(op, a0, a1, l, r, env, used);
      LeftChecks(m, gen.pool.blk, lo, a0.b, P, op, l, r, env);
    }
  }

  /** The checks of the left operand pass for those of the result. */
  lemma LeftChecks(m: Mem, m': Mem, lo: nat, b: int, P: Pend, op: AluOp, left: Arith, right: Arith, env: Env)
    requires Checks(m, lo, b, P, GuardSem(left, env)) && Kept(m, m', |m|)
    ensures Checks(m', lo, b, P, GuardSem(Bin(op, left, right), env))
  {
    ChecksKept(m, m', lo, b, P, GuardSem(left, env));
    SameGuard(left, Bin(op, left, right), env);
    ChecksEq(m', lo, b, P, GuardSem(left, env), GuardSem(Bin(op, left, right), env));
  }

  lemma NeedSome(e: Arith)
    ensures Need(e) >= 1
  {
  }

  lemma NoChecks(e: Arith, env: Env)
    requires e.Imm? || e.PktLen?
    ensures Agree(TrueSem(), GuardSem(e, env))
  {
  }

  lemma SameGuard(a: Arith, e: Arith, env: Env)
    requires e == Minus(a) || (e.Bin? && e.l == a)
    ensures Agree(GuardSem(a, env), GuardSem(e, env))
  {
    forall p ensures GuardSem(a, env)(p) == GuardSem(e, env)(p) {
      assert GuardSem(a, env)(p) == Guard(a, env, p);
    }
  }

  /** Expressions stand whatever is generated above them. */
  lemma ChecksBelow(m: Mem, m': Mem, lo: nat, b: int, P: Pend, sem: Packet -> Outcome)
    requires Checks(m, lo, b, P, sem) && Kept(m, m', |m|)
    ensures Checks(m', lo, b, P, sem) && (b >= 0 ==> forall a :: a in P.f.nodes ==> a < |m|)
  {
    if b >= 0 {
      Open(m, lo, b, P, sem);
      StandsKept(m, m', lo, b, P, sem);
    }
  }

  lemma FreeOne(used: seq<bool>, r: nat)
    requires r < |used| && !used[r]
    ensures Free(used) > 0
  {
    FreeNone(used);
  }
}
