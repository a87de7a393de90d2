/** The filter machine: words, packets, instructions and what one instruction does.

    Words are 32-bit and unsigned; a load outside the captured bytes and a division
    by zero stop the program, which `None` stands for. */
module Bpf {

  datatype Option<+T> = None | Some(value: T)

  type Byte = n: int | 0 <= n < 256
  type Word = n: int | 0 <= n < 0x1_0000_0000

  const WORD_LIMIT: int := 0x1_0000_0000
  const MEMWORDS: nat := 16

  /** Accumulator, index register and scratch memory are all numbered "atoms". */
  const A: nat := 16
  const X: nat := 17
  const N_ATOMS: nat := 18

  type Store = s: seq<Word> | |s| == 18 witness seq(18, i => 0)

  /** The captured bytes, and the length the packet had on the wire. */
  datatype Packet = Packet(data: seq<Byte>, wirelen: Word)

  datatype Size = WordSize | HalfSize | ByteSize

  datatype AluOp = Add | Sub | Mul | Div | Or | And | Lsh | Rsh

  datatype JmpOp = Jeq | Jgt | Jge | Jset

  datatype Code =
    | Nop
    | LdAbs(size: Size)
    | LdInd(size: Size)
    | LdLen
    | LdImm
    | LdMem
    | LdxImm
    | LdxMem
    | LdxMsh
    | St
    | Stx
    | AluK(op: AluOp)
    | AluX(op: AluOp)
    | Neg
    | Tax
    | Txa
    | Ja
    | JmpK(jmp: JmpOp)
    | JmpX(jmp: JmpOp)
    | RetK
    | RetA

  datatype Stmt = Stmt(code: Code, k: Word)

  /** A statement that falls through, neither a jump nor a return; its register is a
      real one. */
  predicate Plain(s: Stmt) {
    && !s.code.Ja? && !s.code.JmpK? && !s.code.JmpX? && !s.code.RetK? && !s.code.RetA?
    && (s.code.LdMem? || s.code.LdxMem? || s.code.St? || s.code.Stx? ==> s.k < MEMWORDS)
  }

  /** A division by the constant 0, which always aborts. */
  predicate ZeroDivision(code: Code, k: Word) {
    code == AluK(Div) && k == 0
  }

  predicate Safe(s: Stmt) {
    Plain(s) && !ZeroDivision(s.code, s.k)
  }

  /** Division and shifts, which folding may get wrong. */
  predicate Risky(s: Stmt) {
    (s.code.AluK? || s.code.AluX?) && (s.code.op.Div? || s.code.op.Lsh? || s.code.op.Rsh?)
  }

  ghost predicate Calm(ss: seq<Stmt>) {
    forall k {:trigger ss[k]} :: 0 <= k < |ss| ==> !Risky(ss[k])
  }

  predicate TwoWay(s: Stmt) {
    s.code.JmpK? || s.code.JmpX?
  }

  // ----- arithmetic

  function Wrap(n: int): Word {
    n % WORD_LIMIT
  }

  /** The number a word stands for as a signed 32-bit integer. */
  function Signed(w: Word): int {
    if w < 0x8000_0000 then w else w - WORD_LIMIT
  }

  lemma WrapAdd(a: int, b: int)
    ensures Wrap(Wrap(a) + b) == Wrap(a + b)
  {
    var q := a / WORD_LIMIT;
    assert a == WORD_LIMIT * q + Wrap(a);
    assert a + b == WORD_LIMIT * q + (Wrap(a) + b);
  }

  function Pow2(n: nat): (r: nat)
    ensures r >= 1
  {
    if n == 0 then 1 else 2 * Pow2(n - 1)
  }

  function BitAnd(a: nat, b: nat): (r: nat)
    ensures r <= a && r <= b
    decreases a
  {
    if a == 0 || b == 0 then 0
    else 2 * BitAnd(a / 2, b / 2) + (if a % 2 == 1 && b % 2 == 1 then 1 else 0)
  }

  /** Inclusive or, through a | b == a + b - (a & b). */
  function BitOr(a: nat, b: nat): (r: nat) {
    a + b - BitAnd(a, b)
  }

  lemma {:induction false} BitOrBound(a: nat, b: nat, n: nat)
    requires a < Pow2(n) && b < Pow2(n)
    ensures BitOr(a, b) < Pow2(n)
  {
    if n > 0 {
      BitOrBound(a / 2, b / 2, n - 1);
    }
  }

  lemma Pow2Of32()
    ensures Pow2(32) == WORD_LIMIT
  {
    assert Pow2(8) == 256;
    assert Pow2(16) == 65536;
    assert Pow2(24) == 0x100_0000;
  }

  function OrWord(a: Word, b: Word): Word {
    Pow2Of32();
    BitOrBound(a, b, 32);
    BitOr(a, b)
  }

  /** One arithmetic operation; only a division by zero has no result. */
  function Alu(op: AluOp, a: Word, b: Word): Option<Word> {
    match op
    case Add => Some(Wrap(a + b))
    case Sub => Some(Wrap(a - b))
    case Mul => Some(Wrap(a * b))
    case Div => if b == 0 then None else Some(Wrap(a / b))
    case Or => Some(OrWord(a, b))
    case And => Some(BitAnd(a, b))
    case Lsh => Some(Wrap(a * Pow2(b)))
    case Rsh => Some(Wrap(a / Pow2(b)))
  }

  predicate Compare(op: JmpOp, a: Word, b: Word) {
    match op
    case Jeq => a == b
    case Jgt => a > b
    case Jge => a >= b
    case Jset => BitAnd(a, b) != 0
  }

  // ----- packet loads

  function Width(size: Size): nat {
    match size
    case WordSize => 4
    case HalfSize => 2
    case ByteSize => 1
  }

  function Concat(hi: int, lo: int): int {
    hi * 256 + lo
  }

  /** The big-endian number in the bytes at `at`. */
  function BigEndian(data: seq<Byte>, at: nat, size: Size): Word
    requires at + Width(size) <= |data|
  {
    match size
    case ByteSize => data[at]
    case HalfSize => Concat(data[at], data[at + 1])
    case WordSize => Concat(data[at], data[at + 1]) * 0x1_0000 + Concat(data[at + 2], data[at + 3])
  }

  function Load(p: Packet, at: nat, size: Size): Option<Word> {
    if at + Width(size) > |p.data| then None else Some(BigEndian(p.data, at, size))
  }

  // ----- statements

  function Exec(s: Stmt, st: Store, p: Packet): Option<Store> {
    match s.code
    case LdAbs(size) =>
      (match Load(p, s.k, size) case None => None case Some(v) => Some(st[A := v]))
    case LdInd(size) =>
      (match Load(p, Wrap(st[X] + s.k), size) case None => None case Some(v) => Some(st[A := v]))
    case LdLen => Some(st[A := p.wirelen])
    case LdImm => Some(st[A := s.k])
    case LdMem => if s.k < MEMWORDS then Some(st[A := st[s.k]]) else None
    case LdxImm => Some(st[X := s.k])
    case LdxMem => if s.k < MEMWORDS then Some(st[X := st[s.k]]) else None
    case LdxMsh => if s.k < |p.data| then Some(st[X := 4 * (p.data[s.k] % 16)]) else None
    case St => if s.k < MEMWORDS then Some(st[s.k := st[A]]) else None
    case Stx => if s.k < MEMWORDS then Some(st[s.k := st[X]]) else None
    case AluK(op) =>
      (match Alu(op, st[A], s.k) case None => None case Some(v) => Some(st[A := v]))
    case AluX(op) =>
      (match Alu(op, st[A], st[X]) case None => None case Some(v) => Some(st[A := v]))
    case Neg => Some(st[A := Wrap(WORD_LIMIT - st[A])])
    case Tax => Some(st[X := st[A]])
    case Txa => Some(st[A := st[X]])
    case _ => Some(st)
  }

  /** Executes a straight-line list, stopping at the first statement that aborts. */
  function ExecList(ss: seq<Stmt>, st: Store, p: Packet): Option<Store> {
    if ss == [] then Some(st)
    else
      match Exec(ss[0], st, p)
      case None => None
      case Some(st1) => ExecList(ss[1..], st1, p)
  }

  /** Which way a conditional jump goes. */
  predicate Holds(s: Stmt, st: Store) {
    match s.code
    case JmpK(op) => Compare(op, st[A], s.k)
    case JmpX(op) => Compare(op, st[A], st[X])
    case _ => false
  }

  lemma {:induction false} ExecListAppend(ss: seq<Stmt>, tt: seq<Stmt>, st: Store, p: Packet)
    ensures ExecList(ss + tt, st, p) ==
            (match ExecList(ss, st, p) case None => None case Some(st1) => ExecList(tt, st1, p))
  {
    if ss == [] {
      assert ss + tt == tt;
    } else {
      assert (ss + tt)[1..] == ss[1..] + tt;
      match Exec(ss[0], st, p) {
        case None =>
        case Some(st1) => ExecListAppend(ss[1..], tt, st1, p);
      }
    }
  }

  // ----- flat programs

  datatype Insn = Insn(code: Code, jt: Byte, jf: Byte, k: Word)

  /** Runs a flat program from `pc`. Offsets are unsigned, so control only moves
      forward; running off the end gives no verdict. */
  function RunFlat(prog: seq<Insn>, pc: nat, st: Store, p: Packet): Option<Word>
    decreases |prog| - pc
  {
    if pc >= |prog| then None
    else
      var i := prog[pc];
      var s := Stmt(i.code, i.k);
      match i.code
      case RetK => Some(i.k)
      case RetA => Some(st[A])
      case Ja => RunFlat(prog, pc + 1 + i.k, st, p)
      case JmpK(_) => RunFlat(prog, pc + 1 + (if Holds(s, st) then i.jt else i.jf), st, p)
      case JmpX(_) => RunFlat(prog, pc + 1 + (if Holds(s, st) then i.jt else i.jf), st, p)
      case _ =>
        match Exec(s, st, p)
        case None => None
        case Some(st1) => RunFlat(prog, pc + 1, st1, p)
  }

  /** The verifier the kernel applies to a program before it accepts it. */
  predicate Validates(prog: seq<Insn>) {
    && |prog| > 0
    && (forall i :: 0 <= i < |prog| ==> ValidInsn(prog, i))
    && (prog[|prog| - 1].code.RetK? || prog[|prog| - 1].code.RetA?)
  }

  /** No instruction divides by the constant 0. */
  predicate NoZeroDivision(prog: seq<Insn>) {
    forall i :: 0 <= i < |prog| ==> !ZeroDivision(prog[i].code, prog[i].k)
  }

  predicate ValidInsn(prog: seq<Insn>, i: nat)
    requires i < |prog|
  {
    var n := prog[i];
    && (n.code.Ja? ==> i + 1 + n.k < |prog|)
    && (n.code.JmpK? || n.code.JmpX? ==> i + 1 + n.jt < |prog| && i + 1 + n.jf < |prog|)
    && (n.code.St? || n.code.LdMem? ==> n.k < MEMWORDS)
    && !ZeroDivision(n.code, n.k)
  }

  /** What a caller sees: an aborted run rejects the packet. */
  function Verdict(r: Option<Word>): Word {
    match r
    case None => 0
    case Some(v) => v
  }
}
