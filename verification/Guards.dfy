/** The protocol checks in front of a comparison. Items are meant to be loaded only from
    packets that carry their protocol; but an arithmetic operation keeps the checks of
    its left operand only. */
module Guards {
  import opened Bpf
  import opened Fragment
  import opened Language
  import opened Wire
  import opened Headers

  // ----- checks kept and checks meant

  /** The protocols whose checks the generator keeps, in order. */
  function Kept(e: Arith): seq<Proto> {
    match e
    case Imm(_) => []
    case PktLen => []
    case Minus(a) => Kept(a)
    case Bin(_, l, _) => Kept(l)
    case Index(proto, at, _) => Kept(at) + [proto]
  }

  /** The protocols items are loaded from. */
  function Loaded(e: Arith): seq<Proto> {
    match e
    case Imm(_) => []
    case PktLen => []
    case Minus(a) => Loaded(a)
    case Bin(_, l, r) => Loaded(l) + Loaded(r)
    case Index(proto, at, _) => Loaded(at) + [proto]
  }

  ghost predicate Carries(L: seq<Proto>, env: Env, p: Packet) {
    forall q {:trigger q in L} :: q in L ==> ProtoMeaning(q, env, p) == Accept
  }

  lemma CarriesSnoc(L: seq<Proto>, q: Proto, env: Env, p: Packet)
    ensures Carries(L + [q], env, p) <==> Carries(L, env, p) && ProtoMeaning(q, env, p) == Accept
  {
    assert forall x {:trigger x in L + [q]} {:trigger x in L} :: x in L + [q] <==> x in L || x == q;
    assert q in L + [q];
  }

  lemma {:induction false} CarriesAppend(K: seq<Proto>, L: seq<Proto>, env: Env, p: Packet)
    ensures Carries(K + L, env, p) <==> Carries(K, env, p) && Carries(L, env, p)
  {
    assert forall x {:trigger x in K + L} {:trigger x in K} {:trigger x in L} :: x in K + L <==> x in K || x in L;
  }

  /** The checks of one operand pass exactly when those kept do; */
  lemma {:induction false} OperandKept(e: Arith, env: Env, p: Packet)
    ensures Guard(e, env, p) == Accept <==> Carries(Kept(e), env, p)
  {
    match e {
      case Imm(_) =>
      case PktLen =>
      case Minus(a) => OperandKept(a, env, p);
      case Bin(_, l, _) => OperandKept(l, env, p);
      case Index(proto, at, _) =>
        OperandKept(at, env, p);
        CarriesSnoc(Kept(at), proto, env, p);
    }
  }

  /** The checks of both operands, which stand in front of a comparison, pass. */
  predicate Checked(l: Arith, r: Arith, env: Env, p: Packet) {
    And3(Guard(l, env, p), Guard(r, env, p)) == Accept
  }

  /** and those in front of a comparison when those kept of both operands do. */
  lemma GuardKept(l: Arith, r: Arith, env: Env, p: Packet)
    ensures Checked(l, r, env, p) <==> Carries(Kept(l) + Kept(r), env, p)
  {
    OperandKept(l, env, p);
    OperandKept(r, env, p);
    CarriesAppend(Kept(l), Kept(r), env, p);
  }

  // ----- what a list of protocols requires of a packet

  /** The network layers required; a transport protocol requires IPv4. */
  ghost predicate NeedsType(L: seq<Proto>, t: EtherType) {
    QNet(t) in L || (t == EtherIp && exists n {:trigger QTran(n) in L} :: QTran(n) in L)
  }

  ghost predicate NeedsTran(L: seq<Proto>, n: Byte) {
    QTran(n) in L
  }

  /** No packet carries all of them. */
  ghost predicate Contradictory(L: seq<Proto>) {
    || (exists t, u {:trigger NeedsType(L, t), NeedsType(L, u)} :: NeedsType(L, t) && NeedsType(L, u) && t != u)
    || (exists m, n {:trigger NeedsTran(L, m), NeedsTran(L, n)} :: NeedsTran(L, m) && NeedsTran(L, n) && m != n)
  }

  /** Whatever the second list requires the first requires too. */
  ghost predicate Implies(K: seq<Proto>, L: seq<Proto>) {
    && (forall t {:trigger NeedsType(L, t)} :: NeedsType(L, t) ==> NeedsType(K, t))
    && (forall n {:trigger NeedsTran(L, n)} :: NeedsTran(L, n) ==> NeedsTran(K, n))
  }

  // ----- what a packet must say for it

  /** A layout as tags and labels leave it: the type field, the labels, and then the
      network layer. */
  predicate Stacked(env: Env) {
    env.offLinktype + 2 + 4 * env.labelDepth == env.offNl && 4 <= env.offNl && env.offNl + 64 < WORD_LIMIT
  }

  lemma StackIsStacked(v: nat, k: nat)
    requires 4 * (v + k) + 78 < WORD_LIMIT
    ensures Stacked(StackEnv(v, k))
  {
  }

  /** The protocols can be asked for in this layout. */
  ghost predicate Nameable(L: seq<Proto>, env: Env) {
    forall t {:trigger QNet(t) in L} :: QNet(t) in L ==> LinkTypeKnown(env, t)
  }

  lemma NeedsNameable(L: seq<Proto>, env: Env, t: EtherType)
    requires Nameable(L, env) && NeedsType(L, t)
    ensures LinkTypeKnown(env, t)
  {
  }

  /** A transport protocol: IPv4, its number, and no later fragment. */
  predicate SaysTran(env: Env, n: Byte, d: seq<Byte>) {
    && SaysType(env, EtherIp, d) && env.offNl + 10 <= |d| && d[env.offNl + 9] == n
    && U16(d, env.offNl + 6) % 8192 == 0
  }

  lemma TranExact(env: Env, n: Byte, p: Packet)
    requires Stacked(env)
    ensures ProtoMeaning(QTran(n), env, p) == Accept <==> SaysTran(env, n, p.data)
  {
    TypeExact(env, EtherIp, p);
    ByteField(env, OrNet, 9, n, p);
    FirstFragExact(env, p);
    ThreeAccept(LinkTypeMeaning(env, EtherIp, p), FieldMeaning(env, OrNet, 9, ByteSize, Equals(n), p),
                FirstFragMeaning(env, p));
  }

  lemma CarriesNeeds(L: seq<Proto>, env: Env, p: Packet)
    requires Stacked(env) && Carries(L, env, p)
    ensures forall t {:trigger NeedsType(L, t)} :: NeedsType(L, t) ==> SaysType(env, t, p.data)
    ensures forall n {:trigger NeedsTran(L, n)} :: NeedsTran(L, n) ==> SaysTran(env, n, p.data)
  {
    forall n | NeedsTran(L, n) ensures SaysTran(env, n, p.data) {
      assert QTran(n) in L;
      TranExact(env, n, p);
    }
    forall t | NeedsType(L, t) ensures SaysType(env, t, p.data) {
      if QNet(t) in L {
        TypeExact(env, t, p);
      } else {
        var n :| QTran(n) in L;
        TranExact(env, n, p);
      }
    }
  }

  lemma NeedsCarried(L: seq<Proto>, env: Env, p: Packet)
    requires Stacked(env)
    requires forall t {:trigger NeedsType(L, t)} :: NeedsType(L, t) ==> SaysType(env, t, p.data)
    requires forall n {:trigger NeedsTran(L, n)} :: NeedsTran(L, n) ==> SaysTran(env, n, p.data)
    ensures Carries(L, env, p)
  {
    forall q | q in L ensures ProtoMeaning(q, env, p) == Accept {
      match q {
        case QLink =>
        case QNet(t) => assert NeedsType(L, t); TypeExact(env, t, p);
        case QTran(n) => assert NeedsTran(L, n); TranExact(env, n, p);
      }
    }
  }

  lemma TypesDiffer(env: Env, t: EtherType, u: EtherType, d: seq<Byte>)
    requires LinkTypeKnown(env, t) && LinkTypeKnown(env, u) && SaysType(env, t, d) && SaysType(env, u, d)
    ensures t == u
  {
  }

  // ----- frames to order

  /** Byte `i` of a frame of a given type and protocol: the type field, or the bottom of the
      label stack and the version, and the protocol number. */
  function ByteOf(env: Env, t: EtherType, n: Byte, i: nat): Byte {
    if i == env.offNl + 9 then n
    else if env.labelDepth == 0 && i == env.offLinktype then EtherCode(t) / 256
    else if env.labelDepth == 0 && i == env.offLinktype + 1 then EtherCode(t) % 256
    else if env.labelDepth > 0 && i + 2 == env.offNl then 1
    else if env.labelDepth > 0 && i == env.offNl then 16 * IpVersion(t)
    else 0
  }

  function FrameOf(env: Env, t: EtherType, n: Byte): Packet
    requires Stacked(env)
  {
    Packet(seq(env.offNl + 10, i requires 0 <= i < env.offNl + 10 => ByteOf(env, t, n, i)), env.offNl + 10)
  }

  lemma FrameOfIs(env: Env, t: EtherType, n: Byte)
    requires Stacked(env)
    ensures SaysType(env, t, FrameOf(env, t, n).data)
    ensures t == EtherIp ==> SaysTran(env, n, FrameOf(env, t, n).data)
  {
    var d := FrameOf(env, t, n).data;
    assert forall i {:trigger d[i]} :: 0 <= i < |d| ==> d[i] == ByteOf(env, t, n, i);
    NumberBytes(d, env.offNl + 6, 2);
  }

  /** A frame that carries everything in `K` and not everything in `L`, when there may be
      one. */
  lemma Separating(K: seq<Proto>, L: seq<Proto>, env: Env) returns (p: Packet)
    requires Stacked(env) && Nameable(K, env) && Nameable(L, env) && !Contradictory(K) && !Implies(K, L)
    ensures Carries(K, env, p) && !Carries(L, env, p)
  {
    var t, n := WantedFrame(K, L, env);
    p := FrameOf(env, t, n);
    FrameOfIs(env, t, n);
    NeedsCarried(K, env, p);
    if Carries(L, env, p) {
      CarriesNeeds(L, env, p);
      if u :| NeedsType(L, u) && u != t {
        NeedsNameable(L, env, u);
        TypesDiffer(env, t, u, p.data);
      }
      assert false;
    }
  }

  /** Type and protocol for such a frame. */
  lemma WantedFrame(K: seq<Proto>, L: seq<Proto>, env: Env) returns (t: EtherType, n: Byte)
    requires Nameable(K, env) && !Contradictory(K) && !Implies(K, L)
    ensures LinkTypeKnown(env, t)
    ensures forall u {:trigger NeedsType(K, u)} :: NeedsType(K, u) ==> u == t
    ensures forall m {:trigger NeedsTran(K, m)} :: NeedsTran(K, m) ==> m == n && t == EtherIp
    ensures (exists u {:trigger NeedsType(L, u)} :: NeedsType(L, u) && u != t) ||
            (exists m {:trigger NeedsTran(L, m)} :: NeedsTran(L, m) && m != n && t == EtherIp)
  {
    if u :| NeedsType(L, u) && !NeedsType(K, u) {
      if t' :| NeedsType(K, t') {
        t := t';
        NeedsNameable(K, env, t);
      } else {
        t := if u == EtherIp then EtherIpv6 else EtherIp;
      }
      assert NeedsType(L, u) && u != t;
      if n' :| NeedsTran(K, n') {
        assert NeedsType(K, EtherIp);
        n := n';
      } else {
        n := 0;
      }
    } else {
      var m :| NeedsTran(L, m) && !NeedsTran(K, m);
      assert NeedsType(L, EtherIp);
      t := EtherIp;
      if n' :| NeedsTran(K, n') {
        n := n';
      } else {
        n := if m == 0 then 1 else 0;
      }
      assert NeedsTran(L, m) && m != n;
    }
  }

  /** The checks in front of a comparison, behind whatever tags and labels, make sure that
      every item of either operand is loaded from a packet that carries its protocol
      exactly when they cannot all pass, or already require what the dropped ones
      require. */
  lemma ChecksSuffice(l: Arith, r: Arith, env: Env)
    requires Stacked(env) && Nameable(Loaded(l) + Loaded(r), env)
    ensures
      var K, L := Kept(l) + Kept(r), Loaded(l) + Loaded(r);
      (forall p {:trigger Checked(l, r, env, p)} :: Checked(l, r, env, p) ==> Carries(L, env, p)) <==>
      Contradictory(K) || Implies(K, L)
  {
    var K, L := Kept(l) + Kept(r), Loaded(l) + Loaded(r);
    KeptNameable(l, r, env);
    if Contradictory(K) || Implies(K, L) {
      forall p | Checked(l, r, env, p) ensures Carries(L, env, p) {
        GuardKept(l, r, env, p);
        CarriesNeeds(K, env, p);
        if Implies(K, L) {
          NeedsCarried(L, env, p);
        } else {
          NoneCarries(K, env, p);
        }
      }
    } else {
      var p := Separating(K, L, env);
      GuardKept(l, r, env, p);
      assert Checked(l, r, env, p);
    }
  }

  lemma {:induction false} KeptLoaded(e: Arith, q: Proto)
    requires q in Kept(e)
    ensures q in Loaded(e)
  {
    match e {
      case Imm(_) =>
      case PktLen =>
      case Minus(a) => KeptLoaded(a, q);
      case Bin(_, l, _) => KeptLoaded(l, q);
      case Index(proto, at, _) =>
        if q != proto {
          KeptLoaded(at, q);
        }
    }
  }

  lemma KeptNameable(l: Arith, r: Arith, env: Env)
    requires Nameable(Loaded(l) + Loaded(r), env)
    ensures Nameable(Kept(l) + Kept(r), env)
  {
    forall t | QNet(t) in Kept(l) + Kept(r) ensures LinkTypeKnown(env, t) {
      if QNet(t) in Kept(l) {
        KeptLoaded(l, QNet(t));
      } else {
        KeptLoaded(r, QNet(t));
      }
      assert QNet(t) in Loaded(l) + Loaded(r);
    }
  }

  /** Operands the generator accepts name only what can be asked for. */
  lemma {:induction false} KnownNameable(e: Arith, env: Env, t: EtherType)
    requires ArithKnown(e, env) && QNet(t) in Loaded(e)
    ensures LinkTypeKnown(env, t)
  {
    match e {
      case Imm(_) =>
      case PktLen =>
      case Minus(a) => KnownNameable(a, env, t);
      case Bin(_, l, r) =>
        if QNet(t) in Loaded(l) {
          KnownNameable(l, env, t);
        } else {
          KnownNameable(r, env, t);
        }
      case Index(proto, at, _) =>
        if QNet(t) in Loaded(at) {
          KnownNameable(at, env, t);
        }
    }
  }

  lemma NoneCarries(K: seq<Proto>, env: Env, p: Packet)
    requires Stacked(env) && Nameable(K, env) && Contradictory(K)
    ensures !Carries(K, env, p)
  {
    if Carries(K, env, p) {
      CarriesNeeds(K, env, p);
      if t, u :| NeedsType(K, t) && NeedsType(K, u) && t != u {
        NeedsNameable(K, env, t);
        NeedsNameable(K, env, u);
        TypesDiffer(env, t, u, p.data);
      }
    }
  }

  // ----- the whole comparison

  /** What a packet must say to carry a protocol. */
  predicate Says(q: Proto, env: Env, d: seq<Byte>) {
    match q
    case QLink => true
    case QNet(t) => SaysType(env, t, d)
    case QTran(n) => SaysTran(env, n, d)
  }

  lemma SaysIs(q: Proto, env: Env, p: Packet)
    requires Stacked(env)
    ensures ProtoMeaning(q, env, p) == Accept <==> Says(q, env, p.data)
  {
    match q {
      case QLink =>
      case QNet(t) => TypeExact(env, t, p);
      case QTran(n) => TranExact(env, n, p);
    }
  }

  /** A comparison accepts exactly the packets that carry the protocols kept and on which
      both operands have values that compare as asked. */
  lemma RelationExact(op: JmpOp, l: Arith, r: Arith, reversed: bool, env: Env, p: Packet)
    requires Stacked(env)
    ensures Meaning(Relation(op, l, r, reversed), env, p) == Accept <==>
      && (forall q {:trigger Says(q, env, p.data)} :: q in Kept(l) + Kept(r) ==> Says(q, env, p.data))
      && Value(l, env, p).Some? && Value(r, env, p).Some?
      && Relates(op, Value(l, env, p).value, Value(r, env, p).value) != reversed
  {
    GuardKept(l, r, env, p);
    forall q ensures ProtoMeaning(q, env, p) == Accept <==> Says(q, env, p.data) {
      SaysIs(q, env, p);
    }
    assert Carries(Kept(l) + Kept(r), env, p) <==>
      forall q {:trigger Says(q, env, p.data)} :: q in Kept(l) + Kept(r) ==> Says(q, env, p.data);
    if Value(l, env, p).Some? && Value(r, env, p).Some? {
      CompareIs(op, Value(l, env, p).value, Value(r, env, p).value);
    }
  }

  // ----- a check that is dropped

  /** `0 + tcp[0]`. */
  const TCP_BYTE: Arith := Bin(Add, Imm(0), Index(QTran(IPPROTO_TCP), Imm(0), 1))

  /** A UDP packet. */
  const UDP_PACKET: Packet :=
    Packet([0, 0, 0, 0, 0, 0, 0, 0, 0, 0, 0, 0, 8, 0, 0x40, 0, 0, 0, 0, 0, 0, 0, 0, 17], 24)

  lemma TcpByteValue()
    ensures Value(TCP_BYTE, ETHERNET, UDP_PACKET) == Some(64)
  {
    assert Ihl(ETHERNET, UDP_PACKET) == Some(0);
    assert Load(UDP_PACKET, 14, ByteSize) == Some(64);
    assert Value(Index(QTran(IPPROTO_TCP), Imm(0), 1), ETHERNET, UDP_PACKET) == Some(64);
  }

  /** `0 + tcp[0] = 64` accepts a packet that is not TCP, */
  lemma DroppedCheck()
    ensures RelMeaning(Jeq, TCP_BYTE, Imm(64), false, ETHERNET, UDP_PACKET) == Accept
    ensures !Carries(Loaded(TCP_BYTE), ETHERNET, UDP_PACKET)
  {
    TcpByteValue();
    assert Guard(TCP_BYTE, ETHERNET, UDP_PACKET) == Accept;
    TranExact(ETHERNET, IPPROTO_TCP, UDP_PACKET);
    assert Loaded(TCP_BYTE) == [QTran(IPPROTO_TCP)];
    assert QTran(IPPROTO_TCP) in Loaded(TCP_BYTE);
  }

  /** but `tcp[0] = 0 + tcp[1]` does not: what the right operand drops the left one
      requires. */
  lemma OtherOperandChecks(p: Packet)
    ensures
      var l, r := Index(QTran(IPPROTO_TCP), Imm(0), 1), Bin(Add, Imm(0), Index(QTran(IPPROTO_TCP), Imm(1), 1));
      Checked(l, r, ETHERNET, p) ==> Carries(Loaded(l) + Loaded(r), ETHERNET, p)
  {
    var l, r := Index(QTran(IPPROTO_TCP), Imm(0), 1), Bin(Add, Imm(0), Index(QTran(IPPROTO_TCP), Imm(1), 1));
    assert Kept(l) + Kept(r) == [QTran(IPPROTO_TCP)] &&
      Loaded(l) + Loaded(r) == [QTran(IPPROTO_TCP), QTran(IPPROTO_TCP)];
    forall n | NeedsTran(Loaded(l) + Loaded(r), n) ensures NeedsTran(Kept(l) + Kept(r), n) {
    }
    ChecksSuffice(l, r, ETHERNET);
  }
}
