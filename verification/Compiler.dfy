/** From a filter expression to a flat program: the parser's actions drive the code
    generator, the result is closed, and the graph is laid out. */
module Compiler {
  import opened Bpf
  import opened Flow
  import opened Dag
  import opened Runs
  import opened Lists
  import opened Fragment
  import opened Constancy
  import opened Backpatch
  import opened Language
  import opened Fields
  import opened Codegen
  import opened Arithmetic
  import opened Layout
  import opened Linearize

  // ----- the meaning the generator's routines build is the filter's

  lemma AndAt(s: Packet -> Outcome, t: Packet -> Outcome, p: Packet)
    ensures AndSem(s, t)(p) == And3(s(p), t(p))
  {
  }

  lemma OrAt(s: Packet -> Outcome, t: Packet -> Outcome, p: Packet)
    ensures OrSem(s, t)(p) == Or3(s(p), t(p))
  {
  }

  lemma LinkTypeAt(env: Env, t: EtherType, p: Packet)
    ensures LinkTypeSem(env, t)(p) == LinkTypeMeaning(env, t, p)
  {
    LinkTypeSemIs(env, t);
    assert LinkTypeIs(env, t)(p) == LinkTypeMeaning(env, t, p);
  }

  lemma PortDirAt(env: Env, port: Word, dir: Dir, p: Packet)
    ensures PortDirSem(env, port, dir)(p) == PortDirMeaning(env, port, dir, p)
  {
    AndAt(PortAtomSem(env, 0, port), PortAtomSem(env, 2, port), p);
    OrAt(PortAtomSem(env, 0, port), PortAtomSem(env, 2, port), p);
    assert PortAtomSem(env, 0, port)(p) == PortAtomMeaning(env, 0, port, p);
    assert PortAtomSem(env, 2, port)(p) == PortAtomMeaning(env, 2, port, p);
  }

  lemma PortOpAt(env: Env, port: Word, proto: Byte, dir: Dir, p: Packet)
    ensures PortOpSem(env, port, proto, dir)(p) == PortOpMeaning(env, port, proto, dir, p)
  {
    PortDirAt(env, port, dir, p);
    AndAt(FieldSem(env, OrNet, 9, ByteSize, Equals(proto)), FirstFragSem(env), p);
    AndAt(FirstOfSem(env, proto), PortDirSem(env, port, dir), p);
  }

  lemma PortAt(env: Env, port: Word, proto: PortProto, dir: Dir, p: Packet)
    ensures PortSem(env, port, proto, dir)(p) == PortMeaning(env, port, proto, dir, p)
  {
    LinkTypeAt(env, EtherIp, p);
    PortOpAt(env, port, IPPROTO_UDP, dir, p);
    PortOpAt(env, port, IPPROTO_TCP, dir, p);
    PortOpAt(env, port, IPPROTO_SCTP, dir, p);
    var tcp, udp := PortOpSem(env, port, IPPROTO_TCP, dir), PortOpSem(env, port, IPPROTO_UDP, dir);
    OrAt(tcp, udp, p);
    OrAt(PortOpSem(env, port, IPPROTO_SCTP, dir), OrSem(tcp, udp), p);
    AndAt(LinkTypeSem(env, EtherIp), PortProtoSem(env, port, proto, dir), p);
  }

  lemma VlanAt(id: Option<Word>, env: Env, p: Packet)
    ensures VlanSem(id, env)(p) == VlanMeaning(id, env, p)
  {
    if id.Some? {
      AndAt(TagSem(env), FieldSem(env, OrLink, env.offNl, HalfSize, MaskEquals(id.value, 0x0fff)), p);
    }
  }

  lemma MplsAt(id: Option<Word>, env: Env, p: Packet)
    ensures MplsSem(id, env)(p) == MplsMeaning(id, env, p)
  {
    LinkTypeAt(env, EtherMpls, p);
    if id.Some? {
      AndAt(StackSem(env), FieldSem(env, OrLink, env.offNl, WordSize, MaskEquals(Wrap(id.value * 4096), 0xffff_f000)),
            p);
    }
  }

  /** What the routine for one construct builds. */
  function BuiltSem(f: Filter, env: Env): Packet -> Outcome {
    match f
    case Field(rel, offset, size, c) => FieldSem(env, rel, offset, size, c)
    case Bytes(rel, offset, v) => BytesSem(env, rel, offset, v)
    case Length(jtype, n, negate) => LengthSem(jtype, n, negate)
    case Ether(t) => LinkTypeSem(env, t)
    case Port(port, proto, dir) => PortSem(env, port, proto, dir)
    case Relation(op, l, r, reversed) => RelationSem(op, l, r, reversed, env)
    case Vlan(id) => VlanSem(id, env)
    case Mpls(id) => MplsSem(id, env)
    case Both(l, r) => AndSem(FilterSem(l, env), FilterSem(r, After(l, env)))
    case Either(l, r) => OrSem(FilterSem(l, env), FilterSem(r, After(l, env)))
    case Negated(g) => NotSem(FilterSem(g, env))
  }

  lemma BuiltIs(f: Filter, env: Env)
    ensures Agree(BuiltSem(f, env), FilterSem(f, env))
  {
    forall p ensures BuiltSem(f, env)(p) == FilterSem(f, env)(p) {
      BuiltAt(f, env, p);
      assert FilterSem(f, env)(p) == Meaning(f, env, p);
    }
  }

  lemma BuiltAt(f: Filter, env: Env, p: Packet)
    ensures BuiltSem(f, env)(p) == Meaning(f, env, p)
  {
    match f {
      case Ether(t) => LinkTypeAt(env, t, p);
      case Port(port, proto, dir) => PortAt(env, port, proto, dir, p);
      case Vlan(id) => VlanAt(id, env, p);
      case Mpls(id) => MplsAt(id, env, p);
      case Both(l, r) => AndAt(FilterSem(l, env), FilterSem(r, After(l, env)), p);
      case Either(l, r) => OrAt(FilterSem(l, env), FilterSem(r, After(l, env)), p);
      case Negated(g) =>
        var s := FilterSem(g, env);
        assert NotSem(s)(p) == Not3(s(p));
      case _ =>
    }
  }

  // ----- how large a filter's code may get

  /** Room for the blocks generated for a filter: a statement takes one, a block's branch
      and the long jumps it may need three. */
  function Room(f: Filter): nat {
    match f
    case Field(_, _, _, _) => 6
    case Bytes(_, _, v) => 6 * |v|
    case Length(_, _, _) => 6
    case Ether(_) => 12
    case Port(_, _, _) => 84
    case Relation(_, l, r, _) => CheckRoom(l) + CheckRoom(r) + CodeSize(l) + CodeSize(r) + 6
    case Vlan(_) => 12
    case Mpls(_) => 18
    case Negated(g) => Room(g)
    case Both(l, r) => Room(l) + Room(r)
    case Either(l, r) => Room(l) + Room(r)
  }

  /** How much is written down of an expression. */
  function ArithLength(e: Arith): nat {
    match e
    case Imm(_) => 1
    case PktLen => 1
    case Index(_, at, _) => 1 + ArithLength(at)
    case Minus(a) => 1 + ArithLength(a)
    case Bin(_, l, r) => 1 + ArithLength(l) + ArithLength(r)
  }

  function FilterLength(f: Filter): nat {
    match f
    case Bytes(_, _, v) => 1 + |v|
    case Relation(_, l, r, _) => 1 + ArithLength(l) + ArithLength(r)
    case Negated(g) => 1 + FilterLength(g)
    case Both(l, r) => 1 + FilterLength(l) + FilterLength(r)
    case Either(l, r) => 1 + FilterLength(l) + FilterLength(r)
    case _ => 1
  }

  lemma {:induction false} CodeLinear(e: Arith)
    ensures CodeSize(e) + CheckRoom(e) <= 30 * ArithLength(e)
  {
    match e {
      case Imm(_) =>
      case PktLen =>
      case Index(_, at, _) => CodeLinear(at);
      case Minus(a) => CodeLinear(a);
      case Bin(_, l, r) =>
        CodeLinear(l);
        CodeLinear(r);
    }
  }

  /** The code of a filter is no longer than 84 statements for each part of it. */
  lemma {:induction false} RoomLinear(f: Filter)
    ensures Room(f) <= 84 * FilterLength(f)
  {
    match f {
      case Relation(_, l, r, _) =>
        CodeLinear(l);
        CodeLinear(r);
      case Negated(g) => RoomLinear(g);
      case Both(l, r) =>
        RoomLinear(l);
        RoomLinear(r);
      case Either(l, r) =>
        RoomLinear(l);
        RoomLinear(r);
      case _ =>
    }
  }

  /** In the filter's arithmetic nothing is divided by a constant 0, and a division or a
      shift of constants is one on which folding agrees with the machine. */
  predicate SteadyFilter(f: Filter) {
    match f
    case Relation(_, l, r, _) => SteadyArith(l) && SteadyArith(r)
    case Negated(g) => SteadyFilter(g)
    case Both(l, r) => SteadyFilter(l) && SteadyFilter(r)
    case Either(l, r) => SteadyFilter(l) && SteadyFilter(r)
    case _ => true
  }

  // ----- driving the generator

  class FilterCompiler {
    const gen: CodeGen
    const arith: ArithCode

    constructor ()
      ensures fresh(gen) && fresh(gen.pool) && fresh(arith) && fresh(arith.regs) && fresh(arith.regs.regused)
      ensures arith.gen == gen && arith.regs.Valid() && arith.regs.regused[..] == seq(MEMWORDS, i => false)
      ensures gen.pool.blk == [] && gen.env == ETHERNET
    {
      var g := new CodeGen();
      gen := g;
      arith := new ArithCode(g);
    }

    /** Compiles a filter, operands left to right. It fails exactly when some construct
        is not available or an expression needs too many registers. */
    method Compile(f: Filter) returns (ok: bool, b: nat, ghost P: Pend)
      requires arith.gen == gen && arith.regs.Valid() && Expressible(f, gen.env)
      modifies gen, gen.pool, arith.regs, arith.regs.regused
      ensures arith.regs.Valid()
      ensures ok <==> Generable(f, old(gen.env), Free(old(arith.regs.regused[..])))
      ensures ok ==> Stands(gen.pool.blk, |old(gen.pool.blk)|, b, P, FilterSem(f, old(gen.env)))
      ensures ok ==> gen.env == After(f, old(gen.env)) && arith.regs.regused[..] == old(arith.regs.regused[..])
      ensures Kept(old(gen.pool.blk), gen.pool.blk, |old(gen.pool.blk)|)
      ensures Grew(old(gen.pool.blk), gen.pool.blk, Room(f), SteadyFilter(f))
      decreases f
    {
      ghost var env, lo := gen.env, |gen.pool.blk|;
      b, P := 0, Pend(Frag(map[], map[], 0, 0), [], []);
      ok := true;
      BuiltIs(f, env);
      match f {
        case Field(rel, offset, size, c) => b, P := gen.GenNcmp(rel, offset, size, c);
        case Bytes(rel, offset, v) => b, P := gen.GenBcmp(rel, offset, v);
        case Length(jtype, n, negate) => b, P := gen.GenLen(jtype, n, negate);
        case Ether(t) =>
          ok := LinkTypeKnown(gen.env, t);
          if ok {
            b, P := gen.GenLinktype(t);
          }
        case Port(port, proto, dir) => b, P := gen.GenPort(port, proto, dir);
        case Relation(op, l, r, reversed) => ok, b, P := CompileRelation(op, l, r, reversed);
        case Vlan(id) => ok, b, P := gen.GenVlan(id);
        case Mpls(id) => b, P := gen.GenMpls(id);
        case Negated(g) =>
          ok, b, P := Compile(g);
          if ok {
            ghost var m := gen.pool.blk;
            P := gen.Not(b, P, FilterSem(g, env), lo);
            KeptTrans(old(gen.pool.blk), m, gen.pool.blk, lo, lo);
          }
        case Both(l, r) => ok, b, P := CompilePair(f, l, r, true);
        case Either(l, r) => ok, b, P := CompilePair(f, l, r, false);
      }
      if ok {
        StandsEq(gen.pool.blk, lo, b, P, BuiltSem(f, env), FilterSem(f, env));
      }
    }

    /** Both operands of a connective, the left one first. */
    method CompilePair(f: Filter, l: Filter, r: Filter, both: bool) returns (ok: bool, b: nat, ghost P: Pend)
      requires f == if both then Both(l, r) else Either(l, r)
      requires arith.gen == gen && arith.regs.Valid() && Expressible(f, gen.env)
      modifies gen, gen.pool, arith.regs, arith.regs.regused
      ensures arith.regs.Valid()
      ensures ok <==> Generable(f, old(gen.env), Free(old(arith.regs.regused[..])))
      ensures ok ==> Stands(gen.pool.blk, |old(gen.pool.blk)|, b, P, BuiltSem(f, old(gen.env)))
      ensures ok ==> gen.env == After(f, old(gen.env)) && arith.regs.regused[..] == old(arith.regs.regused[..])
      ensures Kept(old(gen.pool.blk), gen.pool.blk, |old(gen.pool.blk)|)
      ensures Grew(old(gen.pool.blk), gen.pool.blk, Room(f), SteadyFilter(f))
      decreases f, 0
    {
      ghost var env, lo, m0 := gen.env, |gen.pool.blk|, gen.pool.blk;
      b, P := 0, Pend(Frag(map[], map[], 0, 0), [], []);
      var b0;
      ghost var P0;
      ok, b0, P0 := Compile(l);
      if !ok {
        return;
      }
      ghost var m := gen.pool.blk;
      ok, b, P := Compile(r);
      KeptTrans(m0, m, gen.pool.blk, lo, |m|);
      if ok {
        P := Join(both, b0, b, P0, P, FilterSem(l, env), FilterSem(r, After(l, env)), lo, m);
        KeptTrans(m0, m, gen.pool.blk, lo, lo);
      }
    }

    method Join(both: bool, b0: nat, b1: nat, ghost P0: Pend, ghost P1: Pend, ghost s0: Packet -> Outcome,
                ghost s1: Packet -> Outcome, ghost lo: nat, ghost m: Mem) returns (ghost P: Pend)
      requires Stands(m, lo, b0, P0, s0) && Stands(gen.pool.blk, |m|, b1, P1, s1) && Kept(m, gen.pool.blk, |m|)
      requires lo <= |m|
      modifies gen.pool
      ensures Stands(gen.pool.blk, lo, b1, P, if both then AndSem(s0, s1) else OrSem(s0, s1))
      ensures Kept(m, gen.pool.blk, lo) && Grew(old(gen.pool.blk), gen.pool.blk, 0, true)
    {
      if both {
        P := gen.AndNext(b0, b1, P0, P1, s0, s1, lo, m);
      } else {
        P := gen.OrNext(b0, b1, P0, P1, s0, s1, lo, m);
      }
    }

    /** A comparison of two expressions, the left one computed first. */
    method CompileRelation(op: JmpOp, l: Arith, r: Arith, reversed: bool) returns (ok: bool, b: nat, ghost P: Pend)
      requires arith.gen == gen && arith.regs.Valid()
      modifies gen.pool, arith.regs, arith.regs.regused
      ensures arith.regs.Valid()
      ensures ok <==> Generable(Relation(op, l, r, reversed), gen.env, Free(old(arith.regs.regused[..])))
      ensures ok ==> Stands(gen.pool.blk, |old(gen.pool.blk)|, b, P, RelationSem(op, l, r, reversed, gen.env))
      ensures ok ==> arith.regs.regused[..] == old(arith.regs.regused[..])
      ensures Kept(old(gen.pool.blk), gen.pool.blk, |old(gen.pool.blk)|)
      ensures Grew(old(gen.pool.blk), gen.pool.blk, Room(Relation(op, l, r, reversed)),
                   SteadyArith(l) && SteadyArith(r))
    {
      ghost var lo, m0, used := |gen.pool.blk|, gen.pool.blk, arith.regs.regused[..];
      b, P := 0, Pend(Frag(map[], map[], 0, 0), [], []);
      var a0, P0 := arith.Compile(l);
      if a0 == None {
        return false, b, P;
      }
      ghost var m := gen.pool.blk;
      ok, b, P := CompileRight(op, a0.value, l, r, reversed, used, P0, lo);
      KeptTrans(m0, m, gen.pool.blk, lo, lo);
    }

    /** The right operand, and the comparison with the left one. */
    method CompileRight(op: JmpOp, a0: Arth, ghost l: Arith, r: Arith, reversed: bool, ghost used: Used, ghost P0: Pend,
                        ghost lo: nat) returns (ok: bool, b: nat, ghost P: Pend)
      requires arith.gen == gen && arith.Holding(a0, l, gen.env, used)
      requires Checks(gen.pool.blk, lo, a0.b, P0, GuardSem(l, gen.env))
      modifies gen.pool, arith.regs, arith.regs.regused
      ensures arith.regs.Valid()
      ensures ok <==> ArithKnown(r, gen.env) && Need(r) < Free(used)
      ensures ok ==> Stands(gen.pool.blk, lo, b, P, RelationSem(op, l, r, reversed, gen.env))
      ensures ok ==> arith.regs.regused[..] == used
      ensures Kept(old(gen.pool.blk), gen.pool.blk, lo)
      ensures Grew(old(gen.pool.blk), gen.pool.blk, CheckRoom(r) + CodeSize(l) + CodeSize(r) + 6,
                   SteadyArith(l) && SteadyArith(r))
    {
      ghost var m := gen.pool.blk;
      b, P := 0, Pend(Frag(map[], map[], 0, 0), [], []);
      FreeTaken(used, a0.regno);
      var a1, P1 := arith.Compile(r);
      if a1 == None {
        return false, b, P;
      }
      ok := true;
      b, P := arith.GenRelation(op, a0, a1.value, reversed, l, r, gen.env, used, P0, P1, lo, m);
    }
  }

  // ----- the size of the program

  lemma {:induction false} EmitShorter(ss: seq<Stmt>)
    ensures |Emit(ss)| <= |ss|
  {
    if ss != [] {
      EmitShorter(ss[1..]);
    }
  }

  lemma {:induction false} RoomEnough(g: Graph, list: seq<nat>, w: seq<nat>)
    requires NoRepeat(list) && |w| == |g| && forall b :: b in Elems(list) && b < |g| ==> w[b] >= |g[b].stmts| + 3
    ensures Sum(g, AllLong(g), list) <= Total(w)
  {
    if list != [] {
      var l, x := list[..|list| - 1], list[|list| - 1];
      if x < |g| {
        RoomEnough(g, l, w[x := 0]);
        TotalZero(w, x);
        EmitShorter(g[x].stmts);
      } else {
        RoomEnough(g, l, w);
      }
    }
  }

  lemma {:induction false} AllFree(n: nat)
    ensures Free(seq(n, i => false)) == n
  {
    if n > 0 {
      AllFree(n - 1);
      assert seq(n, i => false)[1..] == seq(n - 1, i => false);
    }
  }

  // ----- the whole compilation

  /** A program; an expression the generator refuses; one in which the optimizer finds a
      constant divided by the constant 0; or a program too large to hold. */
  datatype Compiled = Program(code: seq<Insn>) | Refused | DividesByZero | TooLarge(room: nat)

  /** What a filter answers on a packet: the snapshot length when it accepts. */
  function Answer(f: Option<Filter>, snaplen: Word, p: Packet): Option<Word> {
    match f
    case None => Some(snaplen)
    case Some(x) =>
      match Meaning(x, ETHERNET, p)
      case Accept => Some(snaplen)
      case Reject => Some(0)
      case Abort => None
  }

  lemma {:induction false} RoomTotal(m: Mem, k: nat)
    requires k <= |m|
    ensures Total(Weights(GraphOf(m))[..k]) == RoomOf(m, k)
  {
    var w := Weights(GraphOf(m));
    if k > 0 {
      RoomTotal(m, k - 1);
      assert w[..k][..k - 1] == w[..k - 1] && w[..k][k - 1] == |m[k - 1].stmts| + 3;
    }
  }

  lemma GrewGraph(m: Mem, m': Mem, room: nat, steady: bool)
    requires m == [] && Grew(m, m', room, steady)
    ensures Total(Weights(GraphOf(m'))) <= room && (steady ==> SteadyGraph(GraphOf(m')))
  {
    var g := GraphOf(m');
    RoomTotal(m', |m'|);
    assert Weights(g)[..|m'|] == Weights(g);
    if steady {
      forall b | 0 <= b < |g| ensures Steady(g[b].stmts) {
        assert SteadyAt(m', b);
      }
    }
  }

  /** Lays out a finished graph. */
  method Emitted(g: Graph, root: nat, ghost rank: Rank) returns (r: Compiled)
    requires WellFormed(g, rank) && root in rank
    ensures r.Program? || (r.TooLarge? && r.room == Total(Weights(g)) >= WORD_LIMIT)
    ensures r.Program? ==> (Validates(r.code) <==> ZeroFree(g, Reach(g, rank, root)))
    ensures r.Program? ==> forall st, p :: RunFlat(r.code, 0, st, p) == Run(g, rank, root, st, p)
  {
    var room := Total(Weights(g));
    if room >= WORD_LIMIT {
      return TooLarge(room);
    }
    ghost var full := Order(g, rank, root, [], false);
    OrderProps(g, rank, root, [], false);
    TopoNoRepeat(g, rank, full);
    RoomEnough(g, full, Weights(g));
    var lin := new Linearizer(g, rank);
    var fp, passes := lin.IcodeToFcode(root);
    r := Program(fp[..]);
  }

  /** Compiles a filter expression, without the optimizer: the flat program gives the
      filter's answer on every packet, whatever its registers hold at the start, and
      the kernel accepts it. The empty expression accepts everything. It is refused when
      nothing of a packet is to be kept, and when the generator refuses it; and it may be
      too large only if there is not room for it in 32 bits. */
  method PcapCompile(f: Option<Filter>, snaplen: Word) returns (r: Compiled)
    requires f.Some? ==> Expressible(f.value, ETHERNET)
    ensures r.Refused? <==> snaplen == 0 || (f.Some? && !Generable(f.value, ETHERNET, 16))
    ensures !r.DividesByZero? && (r.TooLarge? ==> f.Some? && Room(f.value) + 6 >= WORD_LIMIT)
    ensures r.Program? ==> Validates(r.code) && forall st, p :: RunFlat(r.code, 0, st, p) == Answer(f, snaplen, p)
  {
    if snaplen == 0 {
      return Refused;
    }
    if f == None {
      r := CompileEmpty(snaplen);
      return;
    }
    var ok, g, root, rank := Generate(f.value, snaplen);
    if !ok {
      return Refused;
    }
    r := Emitted(g, root, rank);
  }

  /** The block graph of a filter, closed by its two leaves: acyclic, made of blocks that
      read only what they have written, and giving the filter's answer. */
  method Generate(f: Filter, snaplen: Word) returns (ok: bool, g: Graph, root: nat, ghost rank: Rank)
    requires Expressible(f, ETHERNET)
    ensures ok <==> Generable(f, ETHERNET, 16)
    ensures ok ==> WellFormed(g, rank) && root in rank && root < |g|
    ensures ok ==> forall st, p {:trigger Run(g, rank, root, st, p)} ::
      Run(g, rank, root, st, p) == Answer(Some(f), snaplen, p)
    ensures ok ==> ClosedGraph(g, Reach(g, rank, root)) && ZeroFree(g, Reach(g, rank, root))
    ensures ok ==> Total(Weights(g)) <= Room(f) + 6 && (SteadyFilter(f) ==> SteadyGraph(g))
  {
    AllFree(MEMWORDS);
    g, root, rank := [], 0, map[];
    var c := new FilterCompiler();
    ghost var m0 := c.gen.pool.blk;
    var b;
    ghost var P;
    ok, b, P := c.Compile(f);
    if ok {
      g, root, rank := Finish(c.gen.pool, b, P, f, snaplen);
      GrewGraph(m0, c.gen.pool.blk, Room(f) + 6, SteadyFilter(f));
    }
  }

  method CompileEmpty(snaplen: Word) returns (r: Compiled)
    ensures r.Program? && Validates(r.code) && forall st, p :: RunFlat(r.code, 0, st, p) == Some(snaplen)
  {
    var pool := new Pool();
    var b := pool.GenRetBlk(snaplen);
    var g := GraphOf(pool.blk);
    ghost var rank: Rank := map[b as int := 0];
    assert NodeOk(g, rank, b);
    assert Weights(g) == [3] && Total([3]) == 3 by { assert [3][..0] == [] && Total([]) == 0; }
    r := Emitted(g, b, rank);
    assert forall st, p :: Run(g, rank, b, st, p) == Some(snaplen);
  }

  method Finish(pool: Pool, b: nat, ghost P: Pend, ghost f: Filter, snaplen: Word)
    returns (g: Graph, root: nat, ghost rank: Rank)
    requires Stands(pool.blk, 0, b, P, FilterSem(f, ETHERNET))
    modifies pool
    ensures g == GraphOf(pool.blk) && Grew(old(pool.blk), pool.blk, 6, true)
    ensures WellFormed(g, rank) && root in rank && root < |g|
    ensures forall st, p {:trigger Run(g, rank, root, st, p)} ::
      Run(g, rank, root, st, p) == Answer(Some(f), snaplen, p)
    ensures ClosedGraph(g, Reach(g, rank, root)) && ZeroFree(g, Reach(g, rank, root))
  {
    Open(pool.blk, 0, b, P, FilterSem(f, ETHERNET));
    ghost var yes, no;
    root, yes, no := pool.FinishParse(b, snaplen, P);
    g := GraphOf(pool.blk);
    rank := CloseRank(P.f, yes, no);
    CloseWf(g, P.f, yes, no, snaplen);
    forall st, p ensures Run(g, rank, root, st, p) == Answer(Some(f), snaplen, p) {
      CloseRun(g, P.f, yes, no, snaplen, root, st, p);
      assert FilterSem(f, ETHERNET)(p) == Meaning(f, ETHERNET, p);
    }
    CloseClosed(g, P.f, yes, no, snaplen, root);
  }

  /** The blocks of a finished expression read only what they have written, and divide by
      no constant. */
  lemma CloseClosed(g: Graph, f: Frag, yes: nat, no: nat, snaplen: Word, root: nat)
    requires Wf(f) && Closes(g, f, yes, no, snaplen) && WellFormed(g, CloseRank(f, yes, no)) &&
      root in CloseRank(f, yes, no)
    ensures ClosedGraph(g, Reach(g, CloseRank(f, yes, no), root)) && ZeroFree(g, Reach(g, CloseRank(f, yes, no), root))
  {
    var rank := CloseRank(f, yes, no);
    forall b | b in Reach(g, rank, root) && b < |g|
      ensures ClosedBlock(g[b]) && forall k {:trigger g[b].stmts[k]} :: 0 <= k < |g[b].stmts| ==> Safe(g[b].stmts[k]) {
      ReachRanked(g, rank, root, b);
      if b in f.nodes {
        assert FNodeOk(f, b);
      }
    }
  }
}
