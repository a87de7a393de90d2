/** What the check of a finished program is for: a program that passes it runs to a return,
    or stops at a statement that the packet or a register makes abort. */
module Validity {
  import opened Bpf

  /** A statement that aborts for want of packet bytes, of a divisor other than 0 in X, or of
      a register; the check looks at the registers of `st` and `ld` only. */
  predicate MayAbort(s: Stmt, st: Store, p: Packet) {
    match s.code
    case LdAbs(size) => Load(p, s.k, size) == None
    case LdInd(size) => Load(p, Wrap(st[X] + s.k), size) == None
    case LdxMsh => s.k >= |p.data|
    case AluX(op) => op == Div && st[X] == 0
    case LdxMem => s.k >= MEMWORDS
    case Stx => s.k >= MEMWORDS
    case _ => false
  }

  /** From `pc` on the run stays inside the program until it returns or aborts. */
  predicate Ends(prog: seq<Insn>, pc: nat, st: Store, p: Packet)
    decreases |prog| - pc
  {
    pc < |prog| &&
    var i := prog[pc];
    var s := Stmt(i.code, i.k);
    match i.code
    case RetK => true
    case RetA => true
    case Ja => Ends(prog, pc + 1 + i.k, st, p)
    case JmpK(_) => Ends(prog, pc + 1 + (if Holds(s, st) then i.jt else i.jf), st, p)
    case JmpX(_) => Ends(prog, pc + 1 + (if Holds(s, st) then i.jt else i.jf), st, p)
    case _ =>
      match Exec(s, st, p)
      case None => MayAbort(s, st, p)
      case Some(st1) => Ends(prog, pc + 1, st1, p)
  }

  lemma {:induction false} ValidatedFrom(prog: seq<Insn>, pc: nat, st: Store, p: Packet)
    requires Validates(prog) && pc < |prog|
    ensures Ends(prog, pc, st, p)
    decreases |prog| - pc
  {
    assert ValidInsn(prog, pc);
    var i := prog[pc];
    var s := Stmt(i.code, i.k);
    if i.code.Ja? {
      ValidatedFrom(prog, pc + 1 + i.k, st, p);
    } else if i.code.JmpK? || i.code.JmpX? {
      ValidatedFrom(prog, pc + 1 + (if Holds(s, st) then i.jt else i.jf), st, p);
    } else if !i.code.RetK? && !i.code.RetA? && Exec(s, st, p).Some? {
      ValidatedFrom(prog, pc + 1, Exec(s, st, p).value, p);
    }
  }

  /** A program that passes the check ends in a return or at a statement that aborts, on
      every packet. */
  lemma ValidatedEnds(prog: seq<Insn>, st: Store, p: Packet)
    requires Validates(prog)
    ensures Ends(prog, 0, st, p)
  {
    ValidatedFrom(prog, 0, st, p);
  }
}
