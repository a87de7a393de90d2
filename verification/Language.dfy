/** The filter language and what its expressions mean on a packet.

    Meanings are three-valued: an expression that needs a byte the packet does not
    have, or divides by zero, aborts. Fields are located by the link-layer layout,
    which `vlan` and `mpls` shift for everything generated after them. */
module Language {
  import opened Bpf
  import opened Fragment

  // ----- the link layer

  /** The offsets the generator keeps, for Ethernet: the type field, the network layer
      header, the network layer header when there is no SNAP header, and how many
      MPLS labels have been matched. */
  datatype Env = Env(offLinktype: Word, offNl: Word, offNlNosnap: Word, labelDepth: nat)

  const ETHERNET: Env := Env(12, 14, 17, 0)

  datatype OffRel = OrPacket | OrLink | OrNet | OrNetNosnap | OrTranIpv4 | OrTranIpv6

  const FULL_MASK: Word := 0xffff_ffff

  /** Offset of the header that a field is relative to, where it is fixed. */
  function Base(env: Env, rel: OffRel): Word {
    match rel
    case OrPacket => 0
    case OrLink => 0
    case OrNet => env.offNl
    case OrNetNosnap => env.offNlNosnap
    case OrTranIpv4 => env.offNl
    case OrTranIpv6 => Wrap(env.offNl + 40)
  }

  /** Length of the IPv4 header in bytes: four times the low nibble of its first byte. */
  function Ihl(env: Env, p: Packet): Option<Word> {
    if env.offNl < |p.data| then Some(4 * (p.data[env.offNl] % 16)) else None
  }

  function FieldValue(env: Env, rel: OffRel, offset: Word, size: Size, p: Packet): Option<Word> {
    if rel.OrTranIpv4? then
      match Ihl(env, p)
      case None => None
      case Some(x) => Load(p, Wrap(x + Wrap(env.offNl + offset)), size)
    else
      Load(p, Wrap(Base(env, rel) + offset), size)
  }

  // ----- tests on one field

  datatype Cond = Cond(jtype: JmpOp, reverse: bool, mask: Word, v: Word)

  function CondHolds(c: Cond, x: Word): bool {
    var y := if c.mask == FULL_MASK then x else BitAnd(x, c.mask);
    if c.reverse && (c.jtype.Jgt? || c.jtype.Jge?) then !Compare(c.jtype, y, c.v) else Compare(c.jtype, y, c.v)
  }

  function FieldMeaning(env: Env, rel: OffRel, offset: Word, size: Size, c: Cond, p: Packet): Outcome {
    match FieldValue(env, rel, offset, size, p)
    case None => Abort
    case Some(x) => Decide(CondHolds(c, x))
  }

  function Equals(v: Word): Cond {
    Cond(Jeq, false, FULL_MASK, v)
  }

  function MaskEquals(v: Word, mask: Word): Cond {
    Cond(Jeq, false, mask, v)
  }

  /** A run of bytes at a fixed offset equals `v`. */
  function BytesMeaning(env: Env, rel: OffRel, offset: Word, v: seq<Byte>, p: Packet): Outcome {
    var at := Base(env, rel) + offset;
    if at + |v| > |p.data| then Abort else Decide(p.data[at..at + |v|] == v)
  }

  function LengthMeaning(jtype: JmpOp, n: Word, negate: bool, p: Packet): Outcome {
    Decide(if negate then !Compare(jtype, p.wirelen, n) else Compare(jtype, p.wirelen, n))
  }

  // ----- protocols

  datatype EtherType = EtherIp | EtherIpv6 | EtherArp | EtherRevarp | EtherMpls

  function EtherCode(t: EtherType): Word {
    match t
    case EtherIp => 0x0800
    case EtherIpv6 => 0x86dd
    case EtherArp => 0x0806
    case EtherRevarp => 0x8035
    case EtherMpls => 0x8847
  }

  /** Behind an MPLS label stack there is no type field: only IP can be recognised. */
  predicate LinkTypeKnown(env: Env, t: EtherType) {
    env.labelDepth > 0 ==> t.EtherIp? || t.EtherIpv6?
  }

  /** Bottom-of-stack bit of the last label, then the IP version nibble. */
  function MplsLinkMeaning(env: Env, version: Word, p: Packet): Outcome {
    And3(FieldMeaning(env, OrNet, WORD_LIMIT - 2, ByteSize, MaskEquals(1, 1), p),
         FieldMeaning(env, OrNet, 0, ByteSize, MaskEquals(version, 0xf0), p))
  }

  function LinkTypeMeaning(env: Env, t: EtherType, p: Packet): Outcome {
    if env.labelDepth > 0 then MplsLinkMeaning(env, if t.EtherIpv6? then 0x60 else 0x40, p)
    else FieldMeaning(env, OrLink, env.offLinktype, HalfSize, Equals(EtherCode(t)), p)
  }

  /** The packet is the first or only fragment. */
  function FirstFragMeaning(env: Env, p: Packet): Outcome {
    match FieldValue(env, OrNet, 6, HalfSize, p)
    case None => Abort
    case Some(x) => Decide(BitAnd(x, 0x1fff) == 0)
  }

  function IpProtoMeaning(env: Env, proto: Byte, p: Packet): Outcome {
    And3(LinkTypeMeaning(env, EtherIp, p), FieldMeaning(env, OrNet, 9, ByteSize, Equals(proto), p))
  }

  // ----- ports

  datatype Dir = Src | Dst | SrcOrDst | SrcAndDst

  function PortAtomMeaning(env: Env, off: Word, port: Word, p: Packet): Outcome {
    FieldMeaning(env, OrTranIpv4, off, HalfSize, Equals(port), p)
  }

  function PortDirMeaning(env: Env, port: Word, dir: Dir, p: Packet): Outcome {
    match dir
    case Src => PortAtomMeaning(env, 0, port, p)
    case Dst => PortAtomMeaning(env, 2, port, p)
    case SrcOrDst => Or3(PortAtomMeaning(env, 0, port, p), PortAtomMeaning(env, 2, port, p))
    case SrcAndDst => And3(PortAtomMeaning(env, 0, port, p), PortAtomMeaning(env, 2, port, p))
  }

  function PortOpMeaning(env: Env, port: Word, proto: Byte, dir: Dir, p: Packet): Outcome {
    And3(And3(FieldMeaning(env, OrNet, 9, ByteSize, Equals(proto), p), FirstFragMeaning(env, p)),
         PortDirMeaning(env, port, dir, p))
  }

  /** UDP, TCP or SCTP, or, when no protocol is named, any of the three. */
  datatype PortProto = Udp | Tcp | Sctp | AnyPortProto

  const IPPROTO_TCP: Byte := 6
  const IPPROTO_UDP: Byte := 17
  const IPPROTO_SCTP: Byte := 132

  function PortMeaning(env: Env, port: Word, proto: PortProto, dir: Dir, p: Packet): Outcome {
    And3(LinkTypeMeaning(env, EtherIp, p),
         match proto
         case Udp => PortOpMeaning(env, port, IPPROTO_UDP, dir, p)
         case Tcp => PortOpMeaning(env, port, IPPROTO_TCP, dir, p)
         case Sctp => PortOpMeaning(env, port, IPPROTO_SCTP, dir, p)
         case AnyPortProto =>
           Or3(PortOpMeaning(env, port, IPPROTO_SCTP, dir, p),
               Or3(PortOpMeaning(env, port, IPPROTO_TCP, dir, p), PortOpMeaning(env, port, IPPROTO_UDP, dir, p))))
  }

  // ----- arithmetic

  datatype Proto = QLink | QNet(ether: EtherType) | QTran(ipproto: Byte)

  datatype Arith =
    | Imm(v: Word)
    | PktLen
    | Index(proto: Proto, at: Arith, size: nat)
    | Minus(a: Arith)
    | Bin(op: AluOp, l: Arith, r: Arith)

  predicate SizeKnown(n: nat) {
    n == 1 || n == 2 || n == 4
  }

  function SizeOf(n: nat): Size {
    if n == 1 then ByteSize else if n == 2 then HalfSize else WordSize
  }

  /** The value of an expression mod 2^32; `None` if a load or a division aborts. */
  function Value(e: Arith, env: Env, p: Packet): Option<Word> {
    match e
    case Imm(v) => Some(v)
    case PktLen => Some(p.wirelen)
    case Minus(a) =>
      (match Value(a, env, p) case None => None case Some(x) => Some(Wrap(WORD_LIMIT - x)))
    case Bin(op, l, r) =>
      (match Value(l, env, p)
       case None => None
       case Some(x) =>
         match Value(r, env, p)
         case None => None
         case Some(y) => Alu(op, x, y))
    case Index(proto, at, size) =>
      (match Value(at, env, p)
       case None => None
       case Some(i) => ItemAt(proto, i, size, env, p))
  }

  /** The item `i` bytes into the header of a protocol. */
  function ItemAt(proto: Proto, i: Word, size: nat, env: Env, p: Packet): Option<Word> {
    match proto
    case QLink => Load(p, i, SizeOf(size))
    case QNet(_) => Load(p, Wrap(i + env.offNl), SizeOf(size))
    case QTran(_) =>
      match Ihl(env, p)
      case None => None
      case Some(x) => Load(p, Wrap(Wrap(i + x) + env.offNl), SizeOf(size))
  }

  /** That the packet carries the protocol an item is taken from. */
  function ProtoMeaning(proto: Proto, env: Env, p: Packet): Outcome {
    match proto
    case QLink => Accept
    case QNet(t) => LinkTypeMeaning(env, t, p)
    case QTran(n) => And3(IpProtoMeaning(env, n, p), FirstFragMeaning(env, p))
  }

  /** The protocol checks the generator puts in front of a comparison. Those of the
      right operand of an arithmetic operation are not among them. */
  function Guard(e: Arith, env: Env, p: Packet): Outcome {
    match e
    case Imm(_) => Accept
    case PktLen => Accept
    case Minus(a) => Guard(a, env, p)
    case Bin(_, l, _) => Guard(l, env, p)
    case Index(proto, at, _) => And3(Guard(at, env, p), ProtoMeaning(proto, env, p))
  }

  /** A comparison of two expressions, under their protocol checks. */
  function RelMeaning(op: JmpOp, l: Arith, r: Arith, reversed: bool, env: Env, p: Packet): Outcome {
    And3(And3(Guard(l, env, p), Guard(r, env, p)),
         match Value(l, env, p)
         case None => Abort
         case Some(x) =>
           match Value(r, env, p)
           case None => Abort
           case Some(y) => Decide(Compare(op, x, y) != reversed))
  }

  // ----- encapsulation

  function VlanMeaning(id: Option<Word>, env: Env, p: Packet): Outcome {
    var tag := FieldMeaning(env, OrLink, env.offLinktype, HalfSize, Equals(0x8100), p);
    match id
    case None => tag
    case Some(n) => And3(tag, FieldMeaning(env, OrLink, env.offNl, HalfSize, MaskEquals(n, 0x0fff), p))
  }

  function AfterVlan(env: Env): Env {
    env.(offLinktype := Wrap(env.offLinktype + 4), offNl := Wrap(env.offNl + 4),
         offNlNosnap := Wrap(env.offNlNosnap + 4))
  }

  function MplsMeaning(id: Option<Word>, env: Env, p: Packet): Outcome {
    var stack :=
      if env.labelDepth > 0
      then FieldMeaning(env, OrLink, Wrap(env.offNl - 2), ByteSize, MaskEquals(0, 1), p)
      else LinkTypeMeaning(env, EtherMpls, p);
    match id
    case None => stack
    case Some(n) =>
      And3(stack, FieldMeaning(env, OrLink, env.offNl, WordSize, MaskEquals(Wrap(n * 4096), 0xffff_f000), p))
  }

  function AfterMpls(env: Env): Env {
    env.(offNl := Wrap(env.offNl + 4), offNlNosnap := Wrap(env.offNlNosnap + 4), labelDepth := env.labelDepth + 1)
  }

  // ----- filters

  datatype Filter =
    | Field(rel: OffRel, offset: Word, size: Size, c: Cond)
    | Bytes(rel: OffRel, offset: Word, v: seq<Byte>)
    | Length(jtype: JmpOp, n: Word, negate: bool)
    | Ether(t: EtherType)
    | Port(port: Word, proto: PortProto, dir: Dir)
    | Relation(op: JmpOp, l: Arith, r: Arith, reversed: bool)
    | Vlan(id: Option<Word>)
    | Mpls(id: Option<Word>)
    | Both(left: Filter, right: Filter)
    | Either(left: Filter, right: Filter)
    | Negated(f: Filter)

  function Meaning(f: Filter, env: Env, p: Packet): Outcome {
    match f
    case Field(rel, offset, size, c) => FieldMeaning(env, rel, offset, size, c, p)
    case Bytes(rel, offset, v) => BytesMeaning(env, rel, offset, v, p)
    case Length(jtype, n, negate) => LengthMeaning(jtype, n, negate, p)
    case Ether(t) => LinkTypeMeaning(env, t, p)
    case Port(port, proto, dir) => PortMeaning(env, port, proto, dir, p)
    case Relation(op, l, r, reversed) => RelMeaning(op, l, r, reversed, env, p)
    case Vlan(id) => VlanMeaning(id, env, p)
    case Mpls(id) => MplsMeaning(id, env, p)
    case Both(l, r) => And3(Meaning(l, env, p), Meaning(r, After(l, env), p))
    case Either(l, r) => Or3(Meaning(l, env, p), Meaning(r, After(l, env), p))
    case Negated(g) => Not3(Meaning(g, env, p))
  }

  /** The layout in force after an expression has been generated. */
  function After(f: Filter, env: Env): Env {
    match f
    case Vlan(_) => AfterVlan(env)
    case Mpls(_) => AfterMpls(env)
    case Both(l, r) => After(r, After(l, env))
    case Either(l, r) => After(r, After(l, env))
    case Negated(g) => After(g, env)
    case _ => env
  }

  // ----- what the generator accepts

  /** Registers needed to evaluate an expression, left operand first. */
  function Need(e: Arith): nat {
    match e
    case Imm(_) => 1
    case PktLen => 1
    case Minus(a) => Need(a)
    case Bin(_, l, r) => if Need(l) > Need(r) + 1 then Need(l) else Need(r) + 1
    case Index(_, at, _) => if Need(at) > 2 then Need(at) else 2
  }

  predicate ArithKnown(e: Arith, env: Env) {
    match e
    case Imm(_) => true
    case PktLen => true
    case Minus(a) => ArithKnown(a, env)
    case Bin(_, l, r) => ArithKnown(l, env) && ArithKnown(r, env)
    case Index(proto, at, size) =>
      ArithKnown(at, env) && SizeKnown(size) && (proto.QNet? ==> LinkTypeKnown(env, proto.ether))
  }

  /** A byte string at a fixed offset whose end can be addressed. */
  predicate Fits(env: Env, rel: OffRel, offset: Word, v: seq<Byte>) {
    !rel.OrTranIpv4? && Base(env, rel) + offset + |v| <= WORD_LIMIT
  }

  /** Byte strings are never empty and never wrap around the address space; the
      parser builds no others. */
  predicate Expressible(f: Filter, env: Env) {
    match f
    case Bytes(rel, offset, v) => v != [] && Fits(env, rel, offset, v)
    case Both(l, r) => Expressible(l, env) && Expressible(r, After(l, env))
    case Either(l, r) => Expressible(l, env) && Expressible(r, After(l, env))
    case Negated(g) => Expressible(g, env)
    case _ => true
  }

  /** The generator reports no error on this expression when `free` registers are free. */
  predicate Generable(f: Filter, env: Env, free: nat) {
    match f
    case Ether(t) => LinkTypeKnown(env, t)
    case Relation(_, l, r, _) =>
      && ArithKnown(l, env) && ArithKnown(r, env)
      && Need(l) <= free && Need(r) + 1 <= free
    case Vlan(_) => env.labelDepth == 0
    case Both(l, r) => Generable(l, env, free) && Generable(r, After(l, env), free)
    case Either(l, r) => Generable(l, env, free) && Generable(r, After(l, env), free)
    case Negated(g) => Generable(g, env, free)
    case _ => true
  }
}
