/** Retargeting a finished program to the kernel. In cooked mode a program is written for
    a 16-byte header in front of the payload, but the kernel runs it on the payload
    alone, with the protocol field at a reserved offset. */
module Kernel {
  import opened Bpf

  const SLL_HDR_LEN: nat := 16

  /** Where the kernel keeps the protocol field: -0x1000 as a 32-bit word. */
  const PROTOCOL_OFFSET: Word := 0xffff_f000

  // ----- running a program in the kernel

  /** The payload and the protocol field of a packet. */
  datatype Cooked = Cooked(payload: seq<Byte>, protocol: Word)

  /** One statement on the payload; an absolute load at the reserved offset gives the
      protocol. */
  function ExecKernel(s: Stmt, st: Store, c: Cooked): Option<Store> {
    if s.code.LdAbs? && s.k == 0xffff_f000 then Some(st[A := c.protocol])
    else Exec(s, st, Packet(c.payload, 0))
  }

  function RunKernel(prog: seq<Insn>, pc: nat, st: Store, c: Cooked): Option<Word>
    decreases |prog| - pc
  {
    if pc >= |prog| then None
    else
      var i := prog[pc];
      var s := Stmt(i.code, i.k);
      match i.code
      case RetK => Some(i.k)
      case RetA => Some(st[A])
      case Ja => RunKernel(prog, pc + 1 + i.k, st, c)
      case JmpK(_) => RunKernel(prog, pc + 1 + (if Holds(s, st) then i.jt else i.jf), st, c)
      case JmpX(_) => RunKernel(prog, pc + 1 + (if Holds(s, st) then i.jt else i.jf), st, c)
      case _ =>
        match ExecKernel(s, st, c)
        case None => None
        case Some(st1) => RunKernel(prog, pc + 1, st1, c)
  }

  /** The packet a cooked-mode program is written for: 14 bytes of header, the protocol
      in network order, the payload. */
  function Frame(header: seq<Byte>, hi: Byte, lo: Byte, payload: seq<Byte>): seq<Byte> {
    header + [hi, lo] + payload
  }

  // ----- the rewriting

  /** The load reads the packet. */
  predicate ReadsPacket(n: Insn) {
    n.code.LdAbs? || n.code.LdInd? || n.code.LdxMsh?
  }

  predicate Fixable(k: Word) {
    Signed(k) >= SLL_HDR_LEN || k == 14
  }

  function FixedOffset(k: Word): Word
    requires Fixable(k)
  {
    if Signed(k) >= SLL_HDR_LEN then k - SLL_HDR_LEN else PROTOCOL_OFFSET
  }

  /** Moves an offset into the payload, or to the protocol field; other header fields the
      kernel cannot see. */
  method FixOffset(f: array<Insn>, i: nat) returns (ok: bool)
    requires i < f.Length
    modifies f
    ensures ok <==> Fixable(old(f[i]).k)
    ensures !ok ==> f[..] == old(f[..])
    ensures ok ==> f[..] == old(f[..])[i := old(f[i]).(k := FixedOffset(old(f[i]).k))]
  {
    var k := f[i].k;
    if Signed(k) >= SLL_HDR_LEN {
      f[i] := f[i].(k := k - SLL_HDR_LEN);
    } else if k == 14 {
      f[i] := f[i].(k := PROTOCOL_OFFSET);
    } else {
      return false;
    }
    ok := true;
  }

  /** What a program becomes, instruction by instruction: a non-zero constant verdict is
      made 65535, whatever the snapshot length was. */
  predicate FixedInsn(n: Insn, n': Insn, cooked: bool) {
    && n'.code == n.code && n'.jt == n.jt && n'.jf == n.jf
    && if n.code.RetK? || n.code.RetA? then n'.k == if n.k != 0 then 65535 else 0
       else if cooked && ReadsPacket(n) then Fixable(n.k) && n'.k == FixedOffset(n.k)
       else n'.k == n.k
  }

  predicate Fixed(prog: seq<Insn>, prog': seq<Insn>, cooked: bool) {
    |prog'| == |prog| && forall i {:trigger prog'[i]} :: 0 <= i < |prog| ==> FixedInsn(prog[i], prog'[i], cooked)
  }

  /** Rewrites a copy of the program; gives up, leaving the filter to user level, exactly
      when some load refers to a header field other than the protocol. */
  method FixProgram(prog: array<Insn>, cooked: bool) returns (ok: bool, f: array<Insn>)
    ensures fresh(f) && prog[..] == old(prog[..])
    ensures ok ==> Fixed(prog[..], f[..], cooked)
    ensures !ok <==> cooked && exists i :: 0 <= i < prog.Length && ReadsPacket(prog[i]) && !Fixable(prog[i].k)
  {
    f := new Insn[prog.Length](i requires 0 <= i < prog.Length reads prog => prog[i]);
    var i := 0;
    while i < prog.Length
      invariant 0 <= i <= prog.Length && f.Length == prog.Length && prog[..] == old(prog[..])
      invariant forall j {:trigger f[j]} :: 0 <= j < i ==> FixedInsn(prog[j], f[j], cooked)
      invariant forall j {:trigger f[j]} :: i <= j < prog.Length ==> f[j] == prog[j]
    {
      if f[i].code.RetK? || f[i].code.RetA? {
        if f[i].k != 0 {
          f[i] := f[i].(k := 65535);
        }
      } else if ReadsPacket(f[i]) && cooked {
        ghost var before := f[..];
        var fixed := FixOffset(f, i);
        if !fixed {
          return false, f;
        }
        assert forall j :: 0 <= j < f.Length ==> f[j] == f[..][j] && before[j] == before[j];
      }
      i := i + 1;
    }
    forall j | 0 <= j < prog.Length ensures FixedInsn(prog[j], f[..][j], cooked) {
      assert f[..][j] == f[j];
    }
    ok := true;
  }

  // ----- acceptance is kept

  predicate Accepts(r: Option<Word>) {
    Verdict(r) != 0
  }

  /** Offset 14 is referred to by absolute half-word loads only, and the length of the
      packet is never loaded. */
  predicate Portable(prog: seq<Insn>) {
    forall i {:trigger prog[i]} :: 0 <= i < |prog| ==>
      !prog[i].code.LdLen? && (ReadsPacket(prog[i]) && prog[i].k == 14 ==> prog[i].code == LdAbs(HalfSize))
  }

  /** An indirect load whose address would wrap around into the header. */
  predicate WrapsIntoHeader(x: Word, k: Word) {
    WORD_LIMIT <= x + k < WORD_LIMIT + SLL_HDR_LEN
  }

  /** No indirect load of the run does that. */
  predicate NoWrap(prog: seq<Insn>, pc: nat, st: Store, p: Packet)
    decreases |prog| - pc
  {
    if pc >= |prog| then true
    else
      var i := prog[pc];
      var s := Stmt(i.code, i.k);
      match i.code
      case RetK => true
      case RetA => true
      case Ja => NoWrap(prog, pc + 1 + i.k, st, p)
      case JmpK(_) => NoWrap(prog, pc + 1 + (if Holds(s, st) then i.jt else i.jf), st, p)
      case JmpX(_) => NoWrap(prog, pc + 1 + (if Holds(s, st) then i.jt else i.jf), st, p)
      case _ =>
        && (i.code.LdInd? ==> !WrapsIntoHeader(st[X], i.k))
        && match Exec(s, st, p)
           case None => true
           case Some(st1) => NoWrap(prog, pc + 1, st1, p)
  }

  lemma FrameAt(header: seq<Byte>, hi: Byte, lo: Byte, payload: seq<Byte>, at: nat, size: Size)
    requires |header| == 14
    ensures
      var p, q := Packet(Frame(header, hi, lo, payload), 0), Packet(payload, 0);
      && (at >= SLL_HDR_LEN ==> Load(p, at, size) == Load(q, at - SLL_HDR_LEN, size))
      && Load(p, 14, HalfSize) == Some(Concat(hi, lo))
  {
    var d := Frame(header, hi, lo, payload);
    assert d[14] == hi && d[15] == lo;
    forall i | 0 <= i < |payload| ensures d[SLL_HDR_LEN + i] == payload[i] {
    }
  }

  /** One statement does the same on both sides. */
  lemma FixedExec(n: Insn, n': Insn, st: Store, header: seq<Byte>, hi: Byte, lo: Byte, payload: seq<Byte>,
                  wirelen: Word)
    requires |header| == 14 && FixedInsn(n, n', true) && !n.code.RetK? && !n.code.RetA? && !n.code.LdLen?
    requires ReadsPacket(n) && n.k == 14 ==> n.code == LdAbs(HalfSize)
    requires n.code.LdInd? ==> !WrapsIntoHeader(st[X], n.k)
    ensures ExecKernel(Stmt(n'.code, n'.k), st, Cooked(payload, Concat(hi, lo))) ==
            Exec(Stmt(n.code, n.k), st, Packet(Frame(header, hi, lo, payload), wirelen))
  {
    if n.code.LdAbs? {
      FrameAt(header, hi, lo, payload, n.k, n.code.size);
    } else if n.code.LdInd? {
      IndirectAt(st[X], n.k);
      FrameAt(header, hi, lo, payload, Wrap(st[X] + n.k), n.code.size);
    } else if n.code.LdxMsh? {
      FrameAt(header, hi, lo, payload, n.k, ByteSize);
      HeaderByte(header, hi, lo, payload, n.k);
    }
  }

  lemma IndirectAt(x: Word, k: Word)
    requires Signed(k) >= SLL_HDR_LEN && !WrapsIntoHeader(x, k)
    ensures Wrap(x + k) >= SLL_HDR_LEN && Wrap(x as int + (k - SLL_HDR_LEN)) == Wrap(x + k) - SLL_HDR_LEN
  {
  }

  lemma HeaderByte(header: seq<Byte>, hi: Byte, lo: Byte, payload: seq<Byte>, k: nat)
    requires |header| == 14 && k >= SLL_HDR_LEN
    ensures k < |Frame(header, hi, lo, payload)| <==> k - SLL_HDR_LEN < |payload|
    ensures k - SLL_HDR_LEN < |payload| ==> Frame(header, hi, lo, payload)[k] == payload[k - SLL_HDR_LEN]
  {
  }

  /** The rewritten program accepts the payload with its protocol exactly when the
      original accepts the whole frame; and it aborts exactly when the original does. */
  lemma {:induction false} FixedAccepts(prog: seq<Insn>, prog': seq<Insn>, pc: nat, st: Store,
                                        header: seq<Byte>, hi: Byte, lo: Byte, payload: seq<Byte>, wirelen: Word)
    requires |header| == 14 && Fixed(prog, prog', true) && Portable(prog)
    requires NoWrap(prog, pc, st, Packet(Frame(header, hi, lo, payload), wirelen))
    ensures
      var r := RunFlat(prog, pc, st, Packet(Frame(header, hi, lo, payload), wirelen));
      var r' := RunKernel(prog', pc, st, Cooked(payload, Concat(hi, lo)));
      Accepts(r') == Accepts(r) && (r' == None <==> r == None)
    decreases |prog| - pc
  {
    if pc < |prog| {
      var n, n' := prog[pc], prog'[pc];
      var p := Packet(Frame(header, hi, lo, payload), wirelen);
      if n.code.Ja? {
        FixedAccepts(prog, prog', pc + 1 + n.k, st, header, hi, lo, payload, wirelen);
      } else if n.code.JmpK? || n.code.JmpX? {
        var o := if Holds(Stmt(n.code, n.k), st) then n.jt else n.jf;
        FixedAccepts(prog, prog', pc + 1 + o, st, header, hi, lo, payload, wirelen);
      } else if !n.code.RetK? && !n.code.RetA? {
        FixedExec(n, n', st, header, hi, lo, payload, wirelen);
        match Exec(Stmt(n.code, n.k), st, p) {
          case None =>
          case Some(st1) => FixedAccepts(prog, prog', pc + 1, st1, header, hi, lo, payload, wirelen);
        }
      }
    }
  }

  /** Outside cooked mode only verdicts change, and no packet changes sides. */
  lemma {:induction false} VerdictsOnly(prog: seq<Insn>, prog': seq<Insn>, pc: nat, st: Store, p: Packet)
    requires Fixed(prog, prog', false)
    ensures Accepts(RunFlat(prog', pc, st, p)) == Accepts(RunFlat(prog, pc, st, p))
    decreases |prog| - pc
  {
    if pc < |prog| {
      var n, n' := prog[pc], prog'[pc];
      if n.code.Ja? {
        VerdictsOnly(prog, prog', pc + 1 + n.k, st, p);
      } else if n.code.JmpK? || n.code.JmpX? {
        var o := if Holds(Stmt(n.code, n.k), st) then n.jt else n.jf;
        VerdictsOnly(prog, prog', pc + 1 + o, st, p);
      } else if !n.code.RetK? && !n.code.RetA? {
        match Exec(Stmt(n.code, n.k), st, p) {
          case None =>
          case Some(st1) => VerdictsOnly(prog, prog', pc + 1, st1, p);
        }
      }
    }
  }

  // ----- indirect loads that wrap around

  ghost predicate SameLoad(x: Word, k: Word, size: Size, header: seq<Byte>, hi: Byte, lo: Byte, payload: seq<Byte>) {
    Load(Packet(payload, 0), Wrap(x as int + (k - SLL_HDR_LEN)), size) ==
    Load(Packet(Frame(header, hi, lo, payload), 0), Wrap(x + k), size)
  }

  /** A rewritten indirect load agrees with the original on every frame exactly when the
      address does not wrap around into the header. */
  lemma IndirectExact(x: Word, k: Word, size: Size)
    requires Signed(k) >= SLL_HDR_LEN
    ensures
      (forall header, hi, lo, payload :: |header| == 14 ==> SameLoad(x, k, size, header, hi, lo, payload)) <==>
      !WrapsIntoHeader(x, k)
  {
    if WrapsIntoHeader(x, k) {
      WrappedDiffers(x, k, size);
    } else {
      forall header, hi, lo, payload | |header| == 14 ensures SameLoad(x, k, size, header, hi, lo, payload) {
        IndirectAt(x, k);
        FrameAt(header, hi, lo, payload, Wrap(x + k), size);
      }
    }
  }

  lemma WrappedDiffers(x: Word, k: Word, size: Size)
    requires Signed(k) >= SLL_HDR_LEN && WrapsIntoHeader(x, k)
    ensures !SameLoad(x, k, size, [0, 0, 0, 0, 0, 0, 0, 0, 0, 0, 0, 0, 0, 0], 0, 0, [0, 0, 0])
  {
    var frame := Frame([0, 0, 0, 0, 0, 0, 0, 0, 0, 0, 0, 0, 0, 0], 0, 0, [0, 0, 0]);
    assert |frame| == 19;
    assert Wrap(x + k) == x + k - WORD_LIMIT && Wrap(x as int + (k - SLL_HDR_LEN)) > 3;
    assert Load(Packet(frame, 0), Wrap(x + k), size).Some?;
    assert Load(Packet([0, 0, 0], 0), Wrap(x as int + (k - SLL_HDR_LEN)), size) == None;
  }

  /** Such a load can change sides: this program accepts a frame by the first byte of its
      protocol field, and its rewritten form aborts. */
  lemma WrappedLoadRejected()
    ensures
      var prog := [Insn(LdxImm, 0, 0, 0xffff_fff0), Insn(LdInd(ByteSize), 0, 0, 30), Insn(RetA, 0, 0, 0)];
      var prog' := [Insn(LdxImm, 0, 0, 0xffff_fff0), Insn(LdInd(ByteSize), 0, 0, 14), Insn(RetA, 0, 0, 0)];
      var st := [0, 0, 0, 0, 0, 0, 0, 0, 0, 0, 0, 0, 0, 0, 0, 0, 0, 0];
      var header := [0, 0, 0, 0, 0, 0, 0, 0, 0, 0, 0, 0, 0, 0];
      && Fixed(prog, prog', true) && Portable(prog)
      && Accepts(RunFlat(prog, 0, st, Packet(Frame(header, 8, 0, []), 16)))
      && RunKernel(prog', 0, st, Cooked([], Concat(8, 0))) == None
  {
    var prog := [Insn(LdxImm, 0, 0, 0xffff_fff0), Insn(LdInd(ByteSize), 0, 0, 30), Insn(RetA, 0, 0, 0)];
    var prog' := [Insn(LdxImm, 0, 0, 0xffff_fff0), Insn(LdInd(ByteSize), 0, 0, 14), Insn(RetA, 0, 0, 0)];
    var st: Store := [0, 0, 0, 0, 0, 0, 0, 0, 0, 0, 0, 0, 0, 0, 0, 0, 0, 0];
    var st1 := st[X := 0xffff_fff0];
    var header: seq<Byte> := [0, 0, 0, 0, 0, 0, 0, 0, 0, 0, 0, 0, 0, 0];
    var p := Packet(Frame(header, 8, 0, []), 16);
    var c := Cooked([], Concat(8, 0));
    assert Load(p, 14, ByteSize) == Some(8) && Wrap(0xffff_fff0 + 30) == 14;
    assert RunFlat(prog, 2, st1[A := 8], p) == Some(8);
    assert RunFlat(prog, 1, st1, p) == Some(8);
    assert RunKernel(prog', 1, st1, c) == None;
  }
}
