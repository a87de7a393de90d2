/** The code generator: one routine per construct of the filter language, each
    building pending blocks in the pool. */
module Codegen {
  import opened Bpf
  import opened Atoms
  import opened Fragment
  import opened Constancy
  import opened Backpatch
  import opened Language
  import opened Fields
  import opened Masks

  class CodeGen {
    const pool: Pool
    var env: Env

    constructor ()
      ensures fresh(pool) && pool.blk == [] && env == ETHERNET
    {
      pool := new Pool();
      env := ETHERNET;
    }

    // ----- connectives

    /** `b1` was generated right after `b0`, at `mid`. */
    method And(b0: nat, b1: nat, ghost P0: Pend, ghost P1: Pend, ghost s0: Packet -> Outcome,
               ghost s1: Packet -> Outcome, ghost lo: nat) returns (ghost P: Pend)
      requires Stands(pool.blk, lo, b0, P0, s0) && Stands(pool.blk, lo, b1, P1, s1) &&
        P0.f.nodes.Keys !! P1.f.nodes.Keys
      modifies pool
      ensures Stands(pool.blk, lo, b1, P, AndSem(s0, s1)) && Kept(old(pool.blk), pool.blk, lo)
      ensures P.f.nodes.Keys == P0.f.nodes.Keys + P1.f.nodes.Keys && Same(old(pool.blk), pool.blk, P.f.nodes.Keys)
      ensures |pool.blk| == |old(pool.blk)|
      ensures Grew(old(pool.blk), pool.blk, 0, true)
    {
      Open(pool.blk, lo, b0, P0, s0);
      Open(pool.blk, lo, b1, P1, s1);
      pool.GenAnd(b0, b1, P0, P1);
      AndDenotes(P0.f, P1.f, s0, s1);
      P := JoinPend(P0, P1, Yes);
      SameKept(old(pool.blk), pool.blk, P0.f.nodes.Keys + P1.f.nodes.Keys, lo);
    }

    /** Conjunction with an expression generated right after the left one, when memory
        was `m`. */
    method AndNext(b0: nat, b1: nat, ghost P0: Pend, ghost P1: Pend, ghost s0: Packet -> Outcome,
                   ghost s1: Packet -> Outcome, ghost lo: nat, ghost m: Mem) returns (ghost P: Pend)
      requires Stands(m, lo, b0, P0, s0) && Stands(pool.blk, |m|, b1, P1, s1) && Kept(m, pool.blk, |m|) && lo <= |m|
      modifies pool
      ensures Stands(pool.blk, lo, b1, P, AndSem(s0, s1)) && Kept(m, pool.blk, lo)
      ensures Grew(old(pool.blk), pool.blk, 0, true)
      ensures |pool.blk| == |old(pool.blk)|
    {
      Separate(m, pool.blk, lo, b0, P0, s0, b1, P1, s1);
      StandsKept(m, pool.blk, lo, b0, P0, s0);
      StandsLower(pool.blk, lo, |m|, b1, P1, s1);
      P := And(b0, b1, P0, P1, s0, s1, lo);
    }

    method OrNext(b0: nat, b1: nat, ghost P0: Pend, ghost P1: Pend, ghost s0: Packet -> Outcome,
                  ghost s1: Packet -> Outcome, ghost lo: nat, ghost m: Mem) returns (ghost P: Pend)
      requires Stands(m, lo, b0, P0, s0) && Stands(pool.blk, |m|, b1, P1, s1) && Kept(m, pool.blk, |m|) && lo <= |m|
      modifies pool
      ensures Stands(pool.blk, lo, b1, P, OrSem(s0, s1)) && Kept(m, pool.blk, lo)
      ensures Grew(old(pool.blk), pool.blk, 0, true)
    {
      Separate(m, pool.blk, lo, b0, P0, s0, b1, P1, s1);
      StandsKept(m, pool.blk, lo, b0, P0, s0);
      StandsLower(pool.blk, lo, |m|, b1, P1, s1);
      P := Or(b0, b1, P0, P1, s0, s1, lo);
    }

    method Or(b0: nat, b1: nat, ghost P0: Pend, ghost P1: Pend, ghost s0: Packet -> Outcome,
              ghost s1: Packet -> Outcome, ghost lo: nat) returns (ghost P: Pend)
      requires Stands(pool.blk, lo, b0, P0, s0) && Stands(pool.blk, lo, b1, P1, s1) &&
        P0.f.nodes.Keys !! P1.f.nodes.Keys
      modifies pool
      ensures Stands(pool.blk, lo, b1, P, OrSem(s0, s1)) && Kept(old(pool.blk), pool.blk, lo)
      ensures Grew(old(pool.blk), pool.blk, 0, true)
    {
      Open(pool.blk, lo, b0, P0, s0);
      Open(pool.blk, lo, b1, P1, s1);
      pool.GenOr(b0, b1, P0, P1);
      OrDenotes(P0.f, P1.f, s0, s1);
      P := JoinPend(P0, P1, No);
      SameKept(old(pool.blk), pool.blk, P0.f.nodes.Keys + P1.f.nodes.Keys, lo);
    }

    method Not(b: nat, ghost P0: Pend, ghost s: Packet -> Outcome, ghost lo: nat) returns (ghost P: Pend)
      requires Stands(pool.blk, lo, b, P0, s)
      modifies pool
      ensures Stands(pool.blk, lo, b, P, NotSem(s)) && Kept(old(pool.blk), pool.blk, lo)
      ensures Grew(old(pool.blk), pool.blk, 0, true)
      ensures |pool.blk| == |old(pool.blk)|
    {
      Open(pool.blk, lo, b, P0, s);
      pool.GenNot(b, P0);
      NotDenotes(P0.f, s);
      P := NotPend(P0);
      SameKept(old(pool.blk), pool.blk, P0.f.nodes.Keys, lo);
    }

    // ----- single tests

    /** A block that runs `stmts` and tests. */
    method Test(code: Code, k: Word, stmts: seq<Stmt>, ghost sem: Packet -> Outcome) returns (b: nat, ghost P: Pend)
      requires TestBlock(stmts, Stmt(code, k))
      requires forall st, p :: sem(p) == TestMeaning(stmts, Stmt(code, k), st, p)
      modifies pool
      ensures Stands(pool.blk, |old(pool.blk)|, b, P, sem) && Kept(old(pool.blk), pool.blk, |old(pool.blk)|)
      ensures Grew(old(pool.blk), pool.blk, |stmts| + 3, Steady(stmts))
      ensures |pool.blk| == |old(pool.blk)| + 1
    {
      b := pool.NewTest(code, k, stmts);
      P := AtomPend(b, stmts, Stmt(code, k));
      AtomDenotes(b, stmts, Stmt(code, k), sem);
    }

    /** Masks a field and tests it; a reversed comparison is the opposite one. */
    method GenNcmp(rel: OffRel, offset: Word, size: Size, c: Cond) returns (b: nat, ghost P: Pend)
      modifies pool
      ensures Stands(pool.blk, |old(pool.blk)|, b, P, FieldSem(env, rel, offset, size, c))
      ensures Kept(old(pool.blk), pool.blk, |old(pool.blk)|)
      ensures Grew(old(pool.blk), pool.blk, 6, true)
      ensures |pool.blk| == |old(pool.blk)| + 1
    {
      ghost var lo, e := |pool.blk|, env;
      ghost var sem := FieldSem(e, rel, offset, size, c.(reverse := false));
      var stmts := LoadA(env, rel, offset, size) + Masked(c.mask);
      forall st, p ensures sem(p) == TestMeaning(stmts, Stmt(JmpK(c.jtype), c.v), st, p) {
        FieldTest(e, rel, offset, size, c.(reverse := false), st, p);
      }
      FieldBlock(e, rel, offset, size, c.mask, c.jtype, c.v);
      CalmOk(stmts, UNSURE_STORE);
      b, P := Test(JmpK(c.jtype), c.v, stmts, sem);
      if c.reverse && (c.jtype.Jgt? || c.jtype.Jge?) {
        P := Not(b, P, sem, lo);
        sem := NotSem(sem);
      }
      FieldReversed(e, rel, offset, size, c);
      StandsEq(pool.blk, lo, b, P, sem, FieldSem(e, rel, offset, size, c));
    }

    method GenCmp(rel: OffRel, offset: Word, size: Size, v: Word) returns (b: nat, ghost P: Pend)
      modifies pool
      ensures Stands(pool.blk, |old(pool.blk)|, b, P, FieldSem(env, rel, offset, size, Equals(v)))
      ensures Kept(old(pool.blk), pool.blk, |old(pool.blk)|)
      ensures Grew(old(pool.blk), pool.blk, 6, true)
      ensures |pool.blk| == |old(pool.blk)| + 1
    {
      b, P := GenNcmp(rel, offset, size, Equals(v));
    }

    method GenMcmp(rel: OffRel, offset: Word, size: Size, v: Word, mask: Word) returns (b: nat, ghost P: Pend)
      modifies pool
      ensures Stands(pool.blk, |old(pool.blk)|, b, P, FieldSem(env, rel, offset, size, MaskEquals(v, mask)))
      ensures Kept(old(pool.blk), pool.blk, |old(pool.blk)|)
      ensures Grew(old(pool.blk), pool.blk, 6, true)
    {
      b, P := GenNcmp(rel, offset, size, MaskEquals(v, mask));
    }

    /** Tests the length of the packet on the wire. */
    method GenLen(jtype: JmpOp, n: Word, negate: bool) returns (b: nat, ghost P: Pend)
      modifies pool
      ensures Stands(pool.blk, |old(pool.blk)|, b, P, LengthSem(jtype, n, negate))
      ensures Kept(old(pool.blk), pool.blk, |old(pool.blk)|)
      ensures Grew(old(pool.blk), pool.blk, 6, true)
    {
      ghost var lo := |pool.blk|;
      ghost var sem := LengthSem(jtype, n, false);
      forall st, p ensures sem(p) == TestMeaning([Stmt(LdLen, 0)], Stmt(JmpK(jtype), n), st, p) {
        ExecOne(Stmt(LdLen, 0), st, p);
      }
      LengthBlock(jtype, n);
      CalmOk([Stmt(LdLen, 0)], UNSURE_STORE);
      b, P := Test(JmpK(jtype), n, [Stmt(LdLen, 0)], sem);
      if negate {
        P := Not(b, P, sem, lo);
        LengthReversed(jtype, n);
        StandsEq(pool.blk, lo, b, P, NotSem(sem), LengthSem(jtype, n, negate));
      }
    }

    /** The packet is not a later fragment: the fragment offset is zero. */
    method GenIpfrag() returns (b: nat, ghost P: Pend)
      modifies pool
      ensures Stands(pool.blk, |old(pool.blk)|, b, P, FirstFragSem(env))
      ensures Kept(old(pool.blk), pool.blk, |old(pool.blk)|)
      ensures Grew(old(pool.blk), pool.blk, 6, true)
    {
      ghost var lo, e := |pool.blk|, env;
      ghost var sem := NotSem(FirstFragSem(e));
      var stmts := LoadA(env, OrNet, 6, HalfSize);
      forall st, p ensures sem(p) == TestMeaning(stmts, Stmt(JmpK(Jset), 0x1fff), st, p) {
        assert sem(p) == Not3(FirstFragMeaning(e, p));
        LoadLeaves(env, OrNet, 6, HalfSize, st, p);
      }
      FieldBlock(e, OrNet, 6, HalfSize, FULL_MASK, Jset, 0x1fff);
      CalmOk(stmts, UNSURE_STORE);
      assert stmts + Masked(FULL_MASK) == stmts;
      b, P := Test(JmpK(Jset), 0x1fff, stmts, sem);
      P := Not(b, P, sem, lo);
      NotNot(FirstFragSem(e));
      StandsEq(pool.blk, lo, b, P, NotSem(sem), FirstFragSem(e));
    }

    /** A chain of tests comparing a byte string from its tail: words while four bytes
        are left, then a half word, then a byte. */
    method GenBcmp(rel: OffRel, offset: Word, v: seq<Byte>) returns (b: nat, ghost P: Pend)
      requires v != [] && Fits(env, rel, offset, v)
      modifies pool
      ensures Stands(pool.blk, |old(pool.blk)|, b, P, BytesSem(env, rel, offset, v))
      ensures Kept(old(pool.blk), pool.blk, |old(pool.blk)|)
      ensures Grew(old(pool.blk), pool.blk, 6 * |v|, true)
      ensures |pool.blk| == |old(pool.blk)| + |v| / 4 + |v| % 4 / 2 + |v| % 2
    {
      ghost var lo, e := |pool.blk|, env;
      b, P := AllChunks(rel, offset, v);
      ChunkCount(|v|);
      TailAll(e, rel, offset, v);
      StandsEq(pool.blk, lo, b, P, TailSem(e, rel, offset, v, 0), BytesSem(e, rel, offset, v));
    }

    /** Words while four bytes are left, then a half word, then a byte. */
    method AllChunks(rel: OffRel, offset: Word, v: seq<Byte>) returns (b: nat, ghost P: Pend)
      requires v != [] && Fits(env, rel, offset, v)
      modifies pool
      ensures Stands(pool.blk, |old(pool.blk)|, b, P, TailSem(env, rel, offset, v, 0))
      ensures Kept(old(pool.blk), pool.blk, |old(pool.blk)|)
      ensures Grew(old(pool.blk), pool.blk, 6 * |v|, true)
      ensures |pool.blk| == |old(pool.blk)| + ChunksOf(|v|)
    {
      ghost var lo, m, e := |pool.blk|, pool.blk, env;
      var size := |v|;
      b, P := 0, Pend(Frag(map[], map[], 0, 0), [], []);
      size, b, P := Chunks(rel, offset, v, size, WordSize, b, P, lo, m, e);
      b, P := LastChunks(rel, offset, v, size, b, P, lo, m, e);
    }

    method LastChunks(rel: OffRel, offset: Word, v: seq<Byte>, size0: nat, b0: nat, ghost P0: Pend, ghost lo: nat,
                      ghost m: Mem, ghost e: Env) returns (b: nat, ghost P: Pend)
      requires e == env && Fits(e, rel, offset, v) && size0 <= |v| && v != []
      requires lo == |m| && Kept(m, pool.blk, lo)
      requires size0 < |v| ==> Stands(pool.blk, lo, b0, P0, TailSem(e, rel, offset, v, size0))
      modifies pool
      ensures Kept(m, pool.blk, lo) && Stands(pool.blk, lo, b, P, TailSem(e, rel, offset, v, 0))
      ensures Grew(old(pool.blk), pool.blk, 6 * size0, true)
      ensures |pool.blk| == |old(pool.blk)| + Cuts(size0, HalfSize) + Cuts(Rest(size0, HalfSize), ByteSize)
    {
      var size;
      size, b, P := Chunks(rel, offset, v, size0, HalfSize, b0, P0, lo, m, e);
      assert size == Rest(size0, HalfSize);
      assert size < |v| ==> Stands(pool.blk, lo, b, P, TailSem(e, rel, offset, v, size));
      size, b, P := Chunks(rel, offset, v, size, ByteSize, b, P, lo, m, e);
      assert size == 0 && Stands(pool.blk, lo, b, P, TailSem(e, rel, offset, v, size));
    }

    /** Takes chunks of one width off the tail while that many bytes are left. */
    method Chunks(rel: OffRel, offset: Word, v: seq<Byte>, size0: nat, w: Size, b0: nat, ghost P0: Pend,
                  ghost lo: nat, ghost m: Mem, ghost e: Env) returns (size: nat, b: nat, ghost P: Pend)
      requires e == env && Fits(e, rel, offset, v) && size0 <= |v|
      requires lo == |m| && Kept(m, pool.blk, lo)
      requires size0 < |v| ==> Stands(pool.blk, lo, b0, P0, TailSem(e, rel, offset, v, size0))
      modifies pool
      ensures size <= size0 && size < Width(w) && Kept(m, pool.blk, lo)
      ensures size < |v| ==> Stands(pool.blk, lo, b, P, TailSem(e, rel, offset, v, size))
      ensures Grew(old(pool.blk), pool.blk, 6 * (size0 - size), true)
      ensures size == Rest(size0, w) && |pool.blk| == |old(pool.blk)| + Cuts(size0, w)
    {
      size, b, P := size0, b0, P0;
      while size >= Width(w)
        invariant 0 <= size <= size0 && Kept(m, pool.blk, lo) && Grew(old(pool.blk), pool.blk, 6 * (size0 - size), true)
        invariant Rest(size, w) == Rest(size0, w) && |pool.blk| + Cuts(size, w) == |old(pool.blk)| + Cuts(size0, w)
        invariant size < |v| ==> Stands(pool.blk, lo, b, P, TailSem(e, rel, offset, v, size))
      {
        ghost var m1 := pool.blk;
        b, P := Chunk(rel, offset, v, size, w, b, P, lo, e);
        KeptTrans(m, m1, pool.blk, lo, lo);
        size := size - Width(w);
      }
    }

    /** One step of the chain: the chunk that ends `size` bytes into the string, put
        after the tests of the bytes behind it, if any. */
    method Chunk(rel: OffRel, offset: Word, v: seq<Byte>, size: nat, w: Size, b0: nat, ghost P0: Pend, ghost lo: nat,
                 ghost e: Env)
      returns (b: nat, ghost P: Pend)
      requires e == env && Fits(e, rel, offset, v) && Width(w) <= size <= |v|
      requires lo <= |pool.blk|
      requires size < |v| ==> Stands(pool.blk, lo, b0, P0, TailSem(e, rel, offset, v, size))
      modifies pool
      ensures Stands(pool.blk, lo, b, P, TailSem(e, rel, offset, v, size - Width(w)))
      ensures Kept(old(pool.blk), pool.blk, lo)
      ensures Grew(old(pool.blk), pool.blk, 6, true)
      ensures |pool.blk| == |old(pool.blk)| + 1
    {
      ghost var m := pool.blk;
      ghost var chunk;
      b, P, chunk := GenChunk(rel, offset, v, size - Width(w), w, e);
      P := Follow(size < |v|, b0, b, P0, P, TailSem(e, rel, offset, v, size), chunk,
                  TailSem(e, rel, offset, v, size - Width(w)), lo, m);
    }

    /** The test of one chunk. */
    method GenChunk(rel: OffRel, offset: Word, v: seq<Byte>, n: nat, w: Size, ghost e: Env)
      returns (b: nat, ghost P: Pend, ghost chunk: Packet -> Outcome)
      requires e == env && Fits(e, rel, offset, v) && n + Width(w) <= |v|
      modifies pool
      ensures Stands(pool.blk, |old(pool.blk)|, b, P, chunk) && Kept(old(pool.blk), pool.blk, |old(pool.blk)|)
      ensures n + Width(w) == |v| ==> Agree(chunk, TailSem(e, rel, offset, v, n))
      ensures n + Width(w) < |v| ==>
        Agree(AndSem(TailSem(e, rel, offset, v, n + Width(w)), chunk), TailSem(e, rel, offset, v, n))
      ensures Grew(old(pool.blk), pool.blk, 6, true)
      ensures |pool.blk| == |old(pool.blk)| + 1
    {
      chunk := FieldSem(e, rel, offset + n, w, Equals(BigEndian(v, n, w)));
      b, P := GenCmp(rel, offset + n, w, BigEndian(v, n, w));
      ChunkTails(e, rel, offset, v, n, w);
    }

    /** Puts a test after those generated before it, if there are any. */
    method Follow(some: bool, b0: nat, b1: nat, ghost P0: Pend, ghost P1: Pend,
                  ghost s0: Packet -> Outcome, ghost s1: Packet -> Outcome, ghost t: Packet -> Outcome,
                  ghost lo: nat, ghost m: Mem) returns (ghost P: Pend)
      requires Stands(pool.blk, |m|, b1, P1, s1) && Kept(m, pool.blk, |m|) && lo <= |m|
      requires some ==> Stands(m, lo, b0, P0, s0) && Agree(AndSem(s0, s1), t)
      requires !some ==> Agree(s1, t)
      modifies pool
      ensures Stands(pool.blk, lo, b1, P, t) && Kept(m, pool.blk, lo)
      ensures Grew(old(pool.blk), pool.blk, 0, true)
      ensures |pool.blk| == |old(pool.blk)|
    {
      if some {
        P := AndNext(b0, b1, P0, P1, s0, s1, lo, m);
        StandsEq(pool.blk, lo, b1, P, AndSem(s0, s1), t);
      } else {
        P := P1;
        StandsEq(pool.blk, |m|, b1, P, s1, t);
        StandsLower(pool.blk, lo, |m|, b1, P, t);
      }
    }

    // ----- protocols

    /** Link-layer type, or, behind a label stack, bottom-of-stack bit and IP version. */
    method GenLinktype(t: EtherType) returns (b: nat, ghost P: Pend)
      requires LinkTypeKnown(env, t)
      modifies pool
      ensures Stands(pool.blk, |old(pool.blk)|, b, P, LinkTypeSem(env, t))
      ensures Kept(old(pool.blk), pool.blk, |old(pool.blk)|)
      ensures Grew(old(pool.blk), pool.blk, 12, true)
    {
      if env.labelDepth > 0 {
        b, P := GenMplsLinktype(VersionNibble(t));
      } else {
        b, P := GenCmp(OrLink, env.offLinktype, HalfSize, EtherCode(t));
      }
    }

    method GenMplsLinktype(version: Word) returns (b: nat, ghost P: Pend)
      modifies pool
      ensures Stands(pool.blk, |old(pool.blk)|, b, P, MplsLinkSem(env, version))
      ensures Kept(old(pool.blk), pool.blk, |old(pool.blk)|)
      ensures Grew(old(pool.blk), pool.blk, 12, true)
    {
      ghost var lo, m0, e := |pool.blk|, pool.blk, env;
      var b0, P0 := GenMcmp(OrNet, WORD_LIMIT - 2, ByteSize, 1, 1);
      ghost var m := pool.blk;
      b, P := GenMcmp(OrNet, 0, ByteSize, version, 0xf0);
      P := AndNext(b0, b, P0, P, FieldSem(e, OrNet, WORD_LIMIT - 2, ByteSize, MaskEquals(1, 1)),
                   FieldSem(e, OrNet, 0, ByteSize, MaskEquals(version, 0xf0)), lo, m);
      KeptTrans(m0, m, pool.blk, lo, lo);
    }

    /** An IPv4 packet of a given protocol. */
    method GenIpProto(proto: Byte) returns (b: nat, ghost P: Pend)
      modifies pool
      ensures Stands(pool.blk, |old(pool.blk)|, b, P, IpProtoSem(env, proto))
      ensures Kept(old(pool.blk), pool.blk, |old(pool.blk)|)
      ensures Grew(old(pool.blk), pool.blk, 18, true)
    {
      ghost var lo, m0, e := |pool.blk|, pool.blk, env;
      var b0, P0 := GenLinktype(EtherIp);
      ghost var m := pool.blk;
      b, P := GenCmp(OrNet, 9, ByteSize, proto);
      P := AndNext(b0, b, P0, P, LinkTypeSem(e, EtherIp), FieldSem(e, OrNet, 9, ByteSize, Equals(proto)), lo, m);
      KeptTrans(m0, m, pool.blk, lo, lo);
    }

    // ----- ports

    method GenPortatom(off: Word, port: Word) returns (b: nat, ghost P: Pend)
      modifies pool
      ensures Stands(pool.blk, |old(pool.blk)|, b, P, PortAtomSem(env, off, port))
      ensures Kept(old(pool.blk), pool.blk, |old(pool.blk)|)
      ensures Grew(old(pool.blk), pool.blk, 6, true)
    {
      b, P := GenCmp(OrTranIpv4, off, HalfSize, port);
    }

    /** The direction qualifier of a port test. */
    method GenPortDir(port: Word, dir: Dir) returns (b: nat, ghost P: Pend)
      modifies pool
      ensures Stands(pool.blk, |old(pool.blk)|, b, P, PortDirSem(env, port, dir))
      ensures Kept(old(pool.blk), pool.blk, |old(pool.blk)|)
      ensures Grew(old(pool.blk), pool.blk, 12, true)
    {
      ghost var lo, m0, e := |pool.blk|, pool.blk, env;
      if dir == Src {
        b, P := GenPortatom(0, port);
      } else if dir == Dst {
        b, P := GenPortatom(2, port);
      } else {
        var tmp, T := GenPortatom(0, port);
        ghost var m := pool.blk;
        b, P := GenPortatom(2, port);
        if dir == SrcOrDst {
          P := OrNext(tmp, b, T, P, PortAtomSem(e, 0, port), PortAtomSem(e, 2, port), lo, m);
        } else {
          P := AndNext(tmp, b, T, P, PortAtomSem(e, 0, port), PortAtomSem(e, 2, port), lo, m);
        }
        KeptTrans(m0, m, pool.blk, lo, lo);
      }
    }

    /** IPv4 protocol number and first fragment. */
    method GenFirstOf(proto: Byte) returns (b: nat, ghost P: Pend)
      modifies pool
      ensures Stands(pool.blk, |old(pool.blk)|, b, P, FirstOfSem(env, proto))
      ensures Kept(old(pool.blk), pool.blk, |old(pool.blk)|)
      ensures Grew(old(pool.blk), pool.blk, 12, true)
    {
      ghost var lo, m0, e := |pool.blk|, pool.blk, env;
      var tmp, T := GenCmp(OrNet, 9, ByteSize, proto);
      ghost var m := pool.blk;
      b, P := GenIpfrag();
      P := AndNext(tmp, b, T, P, FieldSem(e, OrNet, 9, ByteSize, Equals(proto)), FirstFragSem(e), lo, m);
      KeptTrans(m0, m, pool.blk, lo, lo);
    }

    method GenPortop(port: Word, proto: Byte, dir: Dir) returns (b: nat, ghost P: Pend)
      modifies pool
      ensures Stands(pool.blk, |old(pool.blk)|, b, P, PortOpSem(env, port, proto, dir))
      ensures Kept(old(pool.blk), pool.blk, |old(pool.blk)|)
      ensures Grew(old(pool.blk), pool.blk, 24, true)
    {
      ghost var lo, m0, e := |pool.blk|, pool.blk, env;
      var b0, P0 := GenFirstOf(proto);
      ghost var m := pool.blk;
      b, P := GenPortDir(port, dir);
      P := AndNext(b0, b, P0, P, FirstOfSem(e, proto), PortDirSem(e, port, dir), lo, m);
      KeptTrans(m0, m, pool.blk, lo, lo);
    }

    /** A port of the named protocol, or of any of the three. */
    method GenPortProto(port: Word, proto: PortProto, dir: Dir) returns (b: nat, ghost P: Pend)
      modifies pool
      ensures Stands(pool.blk, |old(pool.blk)|, b, P, PortProtoSem(env, port, proto, dir))
      ensures Kept(old(pool.blk), pool.blk, |old(pool.blk)|)
      ensures Grew(old(pool.blk), pool.blk, 72, true)
    {
      match proto {
        case Udp => b, P := GenPortop(port, IPPROTO_UDP, dir);
        case Tcp => b, P := GenPortop(port, IPPROTO_TCP, dir);
        case Sctp => b, P := GenPortop(port, IPPROTO_SCTP, dir);
        case AnyPortProto => b, P := GenAnyPort(port, dir);
      }
    }

    /** `tcp or udp` is generated first; `sctp` is then put in front of it. */
    method GenAnyPort(port: Word, dir: Dir) returns (b: nat, ghost P: Pend)
      modifies pool
      ensures Stands(pool.blk, |old(pool.blk)|, b, P, AnyPortSem(env, port, dir))
      ensures Kept(old(pool.blk), pool.blk, |old(pool.blk)|)
      ensures Grew(old(pool.blk), pool.blk, 72, true)
    {
      ghost var lo, m0, e := |pool.blk|, pool.blk, env;
      ghost var tcp, udp := PortOpSem(e, port, IPPROTO_TCP, dir), PortOpSem(e, port, IPPROTO_UDP, dir);
      var tmp, T := GenPortop(port, IPPROTO_TCP, dir);
      ghost var m := pool.blk;
      b, P := GenPortop(port, IPPROTO_UDP, dir);
      P := OrNext(tmp, b, T, P, tcp, udp, lo, m);
      KeptTrans(m0, m, pool.blk, lo, lo);
      m := pool.blk;
      tmp, T := GenPortop(port, IPPROTO_SCTP, dir);
      ghost var m1 := pool.blk;
      P := OrFront(tmp, b, T, P, PortOpSem(e, port, IPPROTO_SCTP, dir), OrSem(tcp, udp), lo, m);
      KeptTrans(m0, m, m1, lo, |m|);
      KeptTrans(m0, m1, pool.blk, lo, lo);
    }

    /** Disjunction with the operand generated later put in front. */
    method OrFront(b0: nat, b1: nat, ghost P0: Pend, ghost P1: Pend, ghost s0: Packet -> Outcome,
                   ghost s1: Packet -> Outcome, ghost lo: nat, ghost m: Mem) returns (ghost P: Pend)
      requires Stands(m, lo, b1, P1, s1) && Stands(pool.blk, |m|, b0, P0, s0) && Kept(m, pool.blk, |m|) && lo <= |m|
      modifies pool
      ensures Stands(pool.blk, lo, b1, P, OrSem(s0, s1)) && Kept(old(pool.blk), pool.blk, lo)
      ensures Grew(old(pool.blk), pool.blk, 0, true)
    {
      Separate(m, pool.blk, lo, b1, P1, s1, b0, P0, s0);
      StandsKept(m, pool.blk, lo, b1, P1, s1);
      StandsLower(pool.blk, lo, |m|, b0, P0, s0);
      P := Or(b0, b1, P0, P1, s0, s1, lo);
    }

    method GenPort(port: Word, proto: PortProto, dir: Dir) returns (b: nat, ghost P: Pend)
      modifies pool
      ensures Stands(pool.blk, |old(pool.blk)|, b, P, PortSem(env, port, proto, dir))
      ensures Kept(old(pool.blk), pool.blk, |old(pool.blk)|)
      ensures Grew(old(pool.blk), pool.blk, 84, true)
    {
      ghost var lo, m0, e := |pool.blk|, pool.blk, env;
      var b0, P0 := GenLinktype(EtherIp);
      ghost var m := pool.blk;
      b, P := GenPortProto(port, proto, dir);
      P := AndNext(b0, b, P0, P, LinkTypeSem(e, EtherIp), PortProtoSem(e, port, proto, dir), lo, m);
      KeptTrans(m0, m, pool.blk, lo, lo);
    }

    // ----- encapsulation

    /** Tests for a VLAN tag; everything generated later looks behind it. */
    method GenVlan(id: Option<Word>) returns (ok: bool, b: nat, ghost P: Pend)
      modifies pool, this
      ensures ok <==> old(env).labelDepth == 0
      ensures ok ==> env == AfterVlan(old(env))
      ensures ok ==> Stands(pool.blk, |old(pool.blk)|, b, P, VlanSem(id, old(env)))
      ensures Kept(old(pool.blk), pool.blk, |old(pool.blk)|)
      ensures Grew(old(pool.blk), pool.blk, 12, true)
    {
      ghost var lo, m0, e := |pool.blk|, pool.blk, env;
      b, P := 0, Pend(Frag(map[], map[], 0, 0), [], []);
      if env.labelDepth > 0 {
        return false, b, P;
      }
      ok := true;
      var origLinktype, origNl := env.offLinktype, env.offNl;
      env := AfterVlan(env);
      b, P := GenCmp(OrLink, origLinktype, HalfSize, 0x8100);
      FieldLink(env, e, origLinktype, HalfSize, Equals(0x8100));
      StandsEq(pool.blk, lo, b, P, FieldSem(env, OrLink, origLinktype, HalfSize, Equals(0x8100)), TagSem(e));
      if id.Some? {
        b, P := AndLink(b, P, TagSem(e), origNl, HalfSize, id.value, 0x0fff, e, lo, m0);
      }
    }

    /** Adds the test of an identifier in the link-layer header. */
    method AndLink(b0: nat, ghost P0: Pend, ghost s0: Packet -> Outcome, offset: Word, size: Size, v: Word, mask: Word,
                   ghost e: Env, ghost lo: nat, ghost m0: Mem) returns (b: nat, ghost P: Pend)
      requires Stands(pool.blk, lo, b0, P0, s0) && Kept(m0, pool.blk, lo) && lo == |m0|
      modifies pool
      ensures Stands(pool.blk, lo, b, P, AndSem(s0, FieldSem(e, OrLink, offset, size, MaskEquals(v, mask))))
      ensures Kept(m0, pool.blk, lo)
      ensures Grew(old(pool.blk), pool.blk, 6, true)
    {
      ghost var m := pool.blk;
      b, P := GenMcmp(OrLink, offset, size, v, mask);
      ghost var s, t := FieldSem(env, OrLink, offset, size, MaskEquals(v, mask)), FieldSem(e, OrLink, offset, size,
                                                                                           MaskEquals(v, mask));
      FieldLink(env, e, offset, size, MaskEquals(v, mask));
      StandsEq(pool.blk, |m|, b, P, s, t);
      P := AndNext(b0, b, P0, P, s0, t, lo, m);
      KeptTrans(m0, m, pool.blk, lo, lo);
    }

    /** Tests for a label: the one before it must not be the bottom of the stack. */
    method GenMpls(id: Option<Word>) returns (b: nat, ghost P: Pend)
      modifies pool, this
      ensures env == AfterMpls(old(env))
      ensures Stands(pool.blk, |old(pool.blk)|, b, P, MplsSem(id, old(env)))
      ensures Kept(old(pool.blk), pool.blk, |old(pool.blk)|)
      ensures Grew(old(pool.blk), pool.blk, 18, true)
    {
      ghost var lo, m0, e := |pool.blk|, pool.blk, env;
      var origNl := env.offNl;
      if env.labelDepth > 0 {
        b, P := GenMcmp(OrLink, Wrap(env.offNl - 2), ByteSize, 0, 1);
      } else {
        b, P := GenLinktype(EtherMpls);
      }
      if id.Some? {
        b, P := AndLink(b, P, StackSem(e), origNl, WordSize, Wrap(id.value * 4096), 0xffff_f000, e, lo, m0);
      }
      env := AfterMpls(env);
    }
  }

  /** How many chunks of one width can be cut off, and what is left. */
  function Cuts(n: nat, w: Size): nat {
    if n < Width(w) then 0 else 1 + Cuts(n - Width(w), w)
  }

  function Rest(n: nat, w: Size): (r: nat)
    ensures r < Width(w)
  {
    if n < Width(w) then n else Rest(n - Width(w), w)
  }

  lemma {:induction false} CutsAre(n: nat, w: Size)
    ensures Cuts(n, w) == n / Width(w) && Rest(n, w) == n % Width(w)
  {
    if n >= Width(w) {
      CutsAre(n - Width(w), w);
      var d := Width(w);
      assert (n - d) / d + 1 == n / d && (n - d) % d == n % d by {
        ModUnique(n, d, (n - d) / d + 1, (n - d) % d);
      }
    }
  }

  function ChunksOf(n: nat): nat {
    var s := Rest(n, WordSize);
    Cuts(n, WordSize) + Cuts(s, HalfSize) + Cuts(Rest(s, HalfSize), ByteSize)
  }

  /** How many chunks of four bytes, two and one there are. */
  lemma ChunkCount(n: nat)
    ensures ChunksOf(n) == n / 4 + n % 4 / 2 + n % 2
  {
    var s, t := Rest(n, WordSize), Rest(Rest(n, WordSize), HalfSize);
    CutsAre(n, WordSize);
    CutsAre(s, HalfSize);
    CutsAre(t, ByteSize);
    ModUnique(n, 2, 2 * (n / 4) + s / 2, t);
  }

  predicate Matches(d: seq<Byte>, at: nat, v: seq<Byte>, n: nat)
    requires at + |v| <= |d|
  {
    forall i {:trigger v[i]} :: n <= i < |v| ==> d[at + i] == v[i]
  }

  /** The string matches from its byte `n` on, in a packet that holds all of it. */
  function TailMeaning(env: Env, rel: OffRel, offset: Word, v: seq<Byte>, n: nat, p: Packet): Outcome {
    var at := Base(env, rel) + offset;
    if at + |v| > |p.data| || n > |v| then Abort else Decide(Matches(p.data, at, v, n))
  }

  function TailSem(env: Env, rel: OffRel, offset: Word, v: seq<Byte>, n: nat): Packet -> Outcome {
    p => TailMeaning(env, rel, offset, v, n, p)
  }

  lemma TailAll(env: Env, rel: OffRel, offset: Word, v: seq<Byte>)
    ensures Agree(TailSem(env, rel, offset, v, 0), BytesSem(env, rel, offset, v))
  {
    var at := Base(env, rel) + offset;
    forall p ensures TailSem(env, rel, offset, v, 0)(p) == BytesSem(env, rel, offset, v)(p) {
      if at + |v| <= |p.data| {
        var w := p.data[at..at + |v|];
        assert forall i {:trigger v[i]} :: 0 <= i < |v| ==> p.data[at + i] == w[i];
        assert Matches(p.data, at, v, 0) <==> w == v;
      }
    }
  }

  /** The chunk put after the tests of the bytes behind it tests everything from its
      first byte on. */
  lemma ChunkTails(env: Env, rel: OffRel, offset: Word, v: seq<Byte>, n: nat, w: Size)
    requires Fits(env, rel, offset, v) && n + Width(w) <= |v|
    ensures offset + n < WORD_LIMIT
    ensures
      var chunk, tail := FieldSem(env, rel, offset + n, w, Equals(BigEndian(v, n, w))), TailSem(env, rel, offset, v, n);
      && (n + Width(w) == |v| ==> Agree(chunk, tail))
      && (n + Width(w) < |v| ==> Agree(AndSem(TailSem(env, rel, offset, v, n + Width(w)), chunk), tail))
  {
    var chunk, tail := FieldSem(env, rel, offset + n, w, Equals(BigEndian(v, n, w))), TailSem(env, rel, offset, v, n);
    var behind := TailSem(env, rel, offset, v, n + Width(w));
    forall p ensures AndSem(behind, chunk)(p) == tail(p) && (n + Width(w) == |v| ==> chunk(p) == tail(p)) {
      ChunkTailAt(env, rel, offset, v, n, w, p);
      assert chunk(p) == FieldMeaning(env, rel, offset + n, w, Equals(BigEndian(v, n, w)), p);
      assert behind(p) == TailMeaning(env, rel, offset, v, n + Width(w), p);
      assert AndSem(behind, chunk)(p) == And3(behind(p), chunk(p));
    }
  }

  lemma ChunkTailAt(env: Env, rel: OffRel, offset: Word, v: seq<Byte>, n: nat, w: Size, p: Packet)
    requires Fits(env, rel, offset, v) && n + Width(w) <= |v|
    ensures offset + n < WORD_LIMIT
    ensures
      var chunk := FieldMeaning(env, rel, offset + n, w, Equals(BigEndian(v, n, w)), p);
      && And3(TailMeaning(env, rel, offset, v, n + Width(w), p), chunk) == TailMeaning(env, rel, offset, v, n, p)
      && (n + Width(w) == |v| ==> chunk == TailMeaning(env, rel, offset, v, n, p))
  {
    ChunkTail(env, rel, offset, v, n, w, p);
    FieldEquals(env, rel, offset + n, w, BigEndian(v, n, w), p);
  }

  lemma ChunkTail(env: Env, rel: OffRel, offset: Word, v: seq<Byte>, n: nat, w: Size, p: Packet)
    requires n + Width(w) <= |v|
    ensures
      var at := Base(env, rel) + offset + n;
      And3(TailMeaning(env, rel, offset, v, n + Width(w), p),
           if at + Width(w) > |p.data| then Abort else Decide(BigEndian(p.data, at, w) == BigEndian(v, n, w))) ==
      TailMeaning(env, rel, offset, v, n, p)
  {
    var at := Base(env, rel) + offset;
    if at + |v| <= |p.data| {
      ChunkSplits(p.data, at, v, n, w);
      AndDecide(Matches(p.data, at, v, n + Width(w)), BigEndian(p.data, at + n, w) == BigEndian(v, n, w));
      assert TailMeaning(env, rel, offset, v, n, p) == Decide(Matches(p.data, at, v, n));
    } else {
      assert TailMeaning(env, rel, offset, v, n + Width(w), p) == Abort;
    }
  }

  lemma AndDecide(s: bool, t: bool)
    ensures And3(Decide(s), Decide(t)) == Decide(s && t)
  {
  }

  lemma FieldEquals(env: Env, rel: OffRel, offset: Word, w: Size, v: Word, p: Packet)
    requires !rel.OrTranIpv4? && Base(env, rel) + offset < WORD_LIMIT
    ensures
      var at := Base(env, rel) + offset;
      FieldMeaning(env, rel, offset, w, Equals(v), p) ==
      if at + Width(w) > |p.data| then Abort else Decide(BigEndian(p.data, at, w) == v)
  {
    var at := Base(env, rel) + offset;
    assert Wrap(at) == at && FieldValue(env, rel, offset, w, p) == Load(p, at, w);
    if at + Width(w) <= |p.data| {
      EqualsHolds(v, BigEndian(p.data, at, w));
    }
  }

  lemma EqualsHolds(v: Word, x: Word)
    ensures CondHolds(Equals(v), x) <==> x == v
  {
  }

  lemma ChunkSplits(d: seq<Byte>, at: nat, v: seq<Byte>, n: nat, w: Size)
    requires at + |v| <= |d| && n + Width(w) <= |v|
    ensures Matches(d, at, v, n) <==> Matches(d, at, v, n + Width(w)) && BigEndian(d, at + n, w) == BigEndian(v, n, w)
  {
    BigEndianInjective(d, at + n, v, n, w);
  }

  // ----- meanings, in the order the tests are chained

  function VersionNibble(t: EtherType): Word {
    if t.EtherIpv6? then 0x60 else 0x40
  }

  function MplsLinkSem(env: Env, version: Word): Packet -> Outcome {
    AndSem(FieldSem(env, OrNet, WORD_LIMIT - 2, ByteSize, MaskEquals(1, 1)),
           FieldSem(env, OrNet, 0, ByteSize, MaskEquals(version, 0xf0)))
  }

  function LinkTypeSem(env: Env, t: EtherType): Packet -> Outcome {
    if env.labelDepth > 0 then MplsLinkSem(env, VersionNibble(t))
    else FieldSem(env, OrLink, env.offLinktype, HalfSize, Equals(EtherCode(t)))
  }

  function IpProtoSem(env: Env, proto: Byte): Packet -> Outcome {
    AndSem(LinkTypeSem(env, EtherIp), FieldSem(env, OrNet, 9, ByteSize, Equals(proto)))
  }

  function PortAtomSem(env: Env, off: Word, port: Word): Packet -> Outcome {
    FieldSem(env, OrTranIpv4, off, HalfSize, Equals(port))
  }

  function PortDirSem(env: Env, port: Word, dir: Dir): Packet -> Outcome {
    match dir
    case Src => PortAtomSem(env, 0, port)
    case Dst => PortAtomSem(env, 2, port)
    case SrcOrDst => OrSem(PortAtomSem(env, 0, port), PortAtomSem(env, 2, port))
    case SrcAndDst => AndSem(PortAtomSem(env, 0, port), PortAtomSem(env, 2, port))
  }

  function FirstOfSem(env: Env, proto: Byte): Packet -> Outcome {
    AndSem(FieldSem(env, OrNet, 9, ByteSize, Equals(proto)), FirstFragSem(env))
  }

  function PortOpSem(env: Env, port: Word, proto: Byte, dir: Dir): Packet -> Outcome {
    AndSem(FirstOfSem(env, proto), PortDirSem(env, port, dir))
  }

  function AnyPortSem(env: Env, port: Word, dir: Dir): Packet -> Outcome {
    OrSem(PortOpSem(env, port, IPPROTO_SCTP, dir),
          OrSem(PortOpSem(env, port, IPPROTO_TCP, dir), PortOpSem(env, port, IPPROTO_UDP, dir)))
  }

  function PortProtoSem(env: Env, port: Word, proto: PortProto, dir: Dir): Packet -> Outcome {
    match proto
    case Udp => PortOpSem(env, port, IPPROTO_UDP, dir)
    case Tcp => PortOpSem(env, port, IPPROTO_TCP, dir)
    case Sctp => PortOpSem(env, port, IPPROTO_SCTP, dir)
    case AnyPortProto => AnyPortSem(env, port, dir)
  }

  function PortSem(env: Env, port: Word, proto: PortProto, dir: Dir): Packet -> Outcome {
    AndSem(LinkTypeSem(env, EtherIp), PortProtoSem(env, port, proto, dir))
  }

  function TagSem(env: Env): Packet -> Outcome {
    FieldSem(env, OrLink, env.offLinktype, HalfSize, Equals(0x8100))
  }

  function VlanSem(id: Option<Word>, env: Env): Packet -> Outcome {
    match id
    case None => TagSem(env)
    case Some(n) => AndSem(TagSem(env), FieldSem(env, OrLink, env.offNl, HalfSize, MaskEquals(n, 0x0fff)))
  }

  function StackSem(env: Env): Packet -> Outcome {
    if env.labelDepth > 0 then FieldSem(env, OrLink, Wrap(env.offNl - 2), ByteSize, MaskEquals(0, 1))
    else LinkTypeSem(env, EtherMpls)
  }

  function MplsSem(id: Option<Word>, env: Env): Packet -> Outcome {
    match id
    case None => StackSem(env)
    case Some(n) => AndSem(StackSem(env),
                           FieldSem(env, OrLink, env.offNl, WordSize, MaskEquals(Wrap(n * 4096), 0xffff_f000)))
  }

  /** Link-layer fields do not move. */
  lemma FieldLink(e0: Env, e1: Env, offset: Word, size: Size, c: Cond)
    ensures Agree(FieldSem(e0, OrLink, offset, size, c), FieldSem(e1, OrLink, offset, size, c))
  {
    forall p ensures FieldSem(e0, OrLink, offset, size, c)(p) == FieldSem(e1, OrLink, offset, size, c)(p) {
      assert FieldMeaning(e0, OrLink, offset, size, c, p) == FieldMeaning(e1, OrLink, offset, size, c, p);
    }
  }
}
