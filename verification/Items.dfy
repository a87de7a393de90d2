/** What fields, items and comparisons mean in the bytes of a packet: where each is looked
    for, how many bytes it takes, and which number they make. */
module Items {
  import opened Bpf
  import opened Fragment
  import opened Language
  import opened Wire
  import opened Masks

  // ----- items

  /** Where the item `i` bytes into a header begins: from the start of the packet, behind the
      link layer, or behind the IPv4 header, whose length its first byte gives in units of
      four bytes. */
  function ItemStart(proto: Proto, i: Word, env: Env, p: Packet): Option<nat> {
    match proto
    case QLink => Some(i)
    case QNet(_) => Some((i + env.offNl) % 0x1_0000_0000)
    case QTran(_) =>
      if env.offNl < |p.data| then Some((i + env.offNl + 4 * (p.data[env.offNl] % 16)) % 0x1_0000_0000)
      else None
  }

  /** An item of `size` bytes is the number they make; there is one exactly when the packet
      holds all of them. */
  lemma ItemExact(proto: Proto, at: Arith, size: nat, env: Env, p: Packet)
    requires size == 1 || size == 2 || size == 4
    ensures
      var v := Value(Index(proto, at, size), env, p);
      match Value(at, env, p)
      case None => v == None
      case Some(i) =>
        match ItemStart(proto, i, env, p)
        case None => v == None
        case Some(a) => if a + size <= |p.data| then v.Some? && v.value == Number(p.data, a, size) else v == None
  {
    if Value(at, env, p).Some? {
      ItemLoads(proto, Value(at, env, p).value, size, env, p);
    }
  }

  lemma ItemLoads(proto: Proto, i: Word, size: nat, env: Env, p: Packet)
    requires size == 1 || size == 2 || size == 4
    ensures
      var v := ItemAt(proto, i, size, env, p);
      match ItemStart(proto, i, env, p)
      case None => v == None
      case Some(a) => if a + size <= |p.data| then v.Some? && v.value == Number(p.data, a, size) else v == None
  {
    var start := ItemStart(proto, i, env, p);
    if start.Some? {
      SizedLoad(p, start.value, size);
      if proto.QTran? {
        TranStart(i, 4 * (p.data[env.offNl] % 16), env.offNl);
      }
    }
  }

  lemma SizedLoad(p: Packet, at: nat, size: nat)
    requires size == 1 || size == 2 || size == 4
    ensures
      var v := Load(p, at, SizeOf(size));
      if at + size <= |p.data| then v.Some? && v.value == Number(p.data, at, size) else v == None
  {
    LoadIs(p, at, SizeOf(size));
  }

  lemma TranStart(i: Word, x: Word, offset: Word)
    ensures Wrap(Wrap(i + x) + offset) == Wrap(i + offset + x)
  {
    WrapAdd(i + x, offset);
  }

  /** Items of 1, 2 and 4 bytes can be asked for, and behind a label stack only those of IP
      among the network layers. */
  lemma ItemKnown(proto: Proto, at: Arith, size: nat, env: Env)
    ensures ArithKnown(Index(proto, at, size), env) <==>
      && ArithKnown(at, env) && (size == 1 || size == 2 || size == 4)
      && (proto.QNet? && env.labelDepth > 0 ==> proto.ether == EtherIp || proto.ether == EtherIpv6)
  {
  }

  // ----- fields

  /** Where a field begins. */
  function FieldStart(env: Env, rel: OffRel, offset: Word, p: Packet): Option<nat> {
    match rel
    case OrPacket => Some(offset)
    case OrLink => Some(offset)
    case OrNet => Some((env.offNl + offset) % 0x1_0000_0000)
    case OrNetNosnap => Some((env.offNlNosnap + offset) % 0x1_0000_0000)
    case OrTranIpv6 => Some((env.offNl + 40 + offset) % 0x1_0000_0000)
    case OrTranIpv4 =>
      if env.offNl < |p.data| then Some((env.offNl + offset + 4 * (p.data[env.offNl] % 16)) % 0x1_0000_0000)
      else None
  }

  function Bytes(size: Size): nat {
    match size
    case ByteSize => 1
    case HalfSize => 2
    case WordSize => 4
  }

  /** The bits the mask selects compare as asked; of the two orderings, the opposite if the
      comparison is reversed. */
  ghost predicate Satisfies(c: Cond, x: nat) {
    exists y: Word {:trigger Selects(c.mask, x, y)} :: Selects(c.mask, x, y) &&
      (Relates(c.jtype, y, c.v) <==> !(c.reverse && (c.jtype == Jgt || c.jtype == Jge)))
  }

  lemma SatisfiesIs(c: Cond, x: Word)
    ensures Satisfies(c, x) <==> CondHolds(c, x)
  {
    var y := BitAnd(x, c.mask);
    SelectsAnd(c.mask, x, y);
    CompareIs(c.jtype, y, c.v);
    OnesKept(x);
    forall z: Word | Selects(c.mask, x, z) ensures z == y {
      SelectsAnd(c.mask, x, z);
    }
  }

  /** A field test aborts where the packet does not hold the field. */
  lemma FieldExact(env: Env, rel: OffRel, offset: Word, size: Size, c: Cond, p: Packet)
    ensures
      var m := Meaning(Field(rel, offset, size, c), env, p);
      match FieldStart(env, rel, offset, p)
      case None => m == Abort
      case Some(a) =>
        if a + Bytes(size) > |p.data| then m == Abort
        else m == if Satisfies(c, Number(p.data, a, Bytes(size))) then Accept else Reject
  {
    FieldValueIs(env, rel, offset, size, p);
    if FieldValue(env, rel, offset, size, p).Some? {
      SatisfiesIs(c, FieldValue(env, rel, offset, size, p).value);
    }
  }

  lemma FieldValueIs(env: Env, rel: OffRel, offset: Word, size: Size, p: Packet)
    ensures
      var v := FieldValue(env, rel, offset, size, p);
      match FieldStart(env, rel, offset, p)
      case None => v == None
      case Some(a) =>
        if a + Bytes(size) > |p.data| then v == None else v.Some? && v.value == Number(p.data, a, Bytes(size))
  {
    FieldLoads(env, rel, offset, size, p);
    var start := FieldStart(env, rel, offset, p);
    if start.Some? {
      LoadFor(p, start.value, size);
    }
  }

  lemma LoadFor(p: Packet, at: nat, size: Size)
    ensures
      var v := Load(p, at, size);
      if at + Bytes(size) > |p.data| then v == None else v.Some? && v.value == Number(p.data, at, Bytes(size))
  {
    LoadIs(p, at, size);
  }

  lemma FieldLoads(env: Env, rel: OffRel, offset: Word, size: Size, p: Packet)
    ensures FieldValue(env, rel, offset, size, p) ==
      match FieldStart(env, rel, offset, p) case None => None case Some(a) => Load(p, a, size)
  {
    FieldStartIs(env, rel, offset, p);
  }

  lemma FieldStartIs(env: Env, rel: OffRel, offset: Word, p: Packet)
    ensures !rel.OrTranIpv4? ==> FieldStart(env, rel, offset, p) == Some(Wrap(Base(env, rel) + offset))
    ensures rel.OrTranIpv4? && env.offNl < |p.data| ==>
      FieldStart(env, rel, offset, p) == Some(Wrap(4 * (p.data[env.offNl] % 16) + Wrap(env.offNl + offset)))
  {
    WrapAdd(env.offNl + 40, offset);
    if env.offNl < |p.data| {
      WrapAdd(env.offNl + offset, 4 * (p.data[env.offNl] % 16));
    }
  }

  /** A byte string. */
  lemma BytesExact(env: Env, rel: OffRel, offset: Word, v: seq<Byte>, p: Packet)
    requires Expressible(Filter.Bytes(rel, offset, v), env)
    ensures
      var m := Meaning(Filter.Bytes(rel, offset, v), env, p);
      match FieldStart(env, rel, offset, p)
      case None => m == Abort
      case Some(a) =>
        if a + |v| > |p.data| then m == Abort
        else m == if forall i :: 0 <= i < |v| ==> p.data[a + i] == v[i] then Accept else Reject
  {
    BytesStart(env, rel, offset, v, p);
    SliceIs(p.data, Base(env, rel) + offset, v);
  }

  lemma BytesStart(env: Env, rel: OffRel, offset: Word, v: seq<Byte>, p: Packet)
    requires v != [] && Fits(env, rel, offset, v)
    ensures FieldStart(env, rel, offset, p) == Some(Base(env, rel) + offset)
  {
    FieldStartIs(env, rel, offset, p);
  }

  lemma SliceIs(d: seq<Byte>, a: nat, v: seq<Byte>)
    ensures a + |v| <= |d| ==> (d[a..a + |v|] == v <==> forall i :: 0 <= i < |v| ==> d[a + i] == v[i])
  {
    if a + |v| <= |d| {
      assert forall i {:trigger v[i]} :: 0 <= i < |v| ==> d[a..a + |v|][i] == d[a + i];
    }
  }

  /** The length on the wire. */
  lemma LengthExact(jtype: JmpOp, n: Word, negate: bool, env: Env, p: Packet)
    ensures Meaning(Length(jtype, n, negate), env, p) ==
      if Relates(jtype, p.wirelen, n) != negate then Accept else Reject
  {
    CompareIs(jtype, p.wirelen, n);
  }

  // ----- arithmetic and connectives

  /** The value of an operation, mod 2^32 or bit by bit; only a division by 0 has none. */
  ghost predicate Makes(op: AluOp, x: Word, y: Word, v: Option<Word>) {
    match op
    case Add => v == Some((x + y) % 0x1_0000_0000)
    case Sub => v == Some((x as int - y as int) % 0x1_0000_0000)
    case Mul => v == Some((x * y) % 0x1_0000_0000)
    case Div => if y == 0 then v == None else v.Some? && v.value == x / y
    case _ => v.Some? && forall i: nat {:trigger Bit(v.value, i)} :: Bit(v.value, i) <==> BitOf(op, x, y, i)
  }

  lemma AluMakes(op: AluOp, x: Word, y: Word)
    ensures Makes(op, x, y, Alu(op, x, y))
  {
    if op.Div? && y != 0 {
      QuotientLess(x, y);
    } else if op.And? || op.Or? || op.Lsh? || op.Rsh? {
      AluBits(op, x, y, 0);
      forall i: nat ensures Bit(Alu(op, x, y).value, i) <==> BitOf(op, x, y, i) {
        AluBits(op, x, y, i);
      }
    }
  }

  /** An operation is applied to the values of its operands in their order. */
  lemma BinExact(op: AluOp, l: Arith, r: Arith, env: Env, p: Packet)
    ensures
      var v, x, y := Value(Bin(op, l, r), env, p), Value(l, env, p), Value(r, env, p);
      if x.Some? && y.Some? then Makes(op, x.value, y.value, v) else v == None
  {
    if Value(l, env, p).Some? && Value(r, env, p).Some? {
      AluMakes(op, Value(l, env, p).value, Value(r, env, p).value);
    }
  }

  lemma MinusExact(a: Arith, env: Env, p: Packet)
    ensures
      var v, x := Value(Minus(a), env, p), Value(a, env, p);
      match x
      case None => v == None
      case Some(n) => v == Some(if n == 0 then 0 else 0x1_0000_0000 - n)
  {
    if Value(a, env, p).Some? {
      Opposite(Value(a, env, p).value);
    }
  }

  lemma Opposite(n: Word)
    ensures Wrap(WORD_LIMIT - n) == if n == 0 then 0 else 0x1_0000_0000 - n
  {
  }

  /** Where a connective accepts and where it aborts: the right operand counts only when the
      left one has not decided. */
  predicate BothOf(x: Outcome, y: Outcome, m: Outcome) {
    (m == Accept <==> x == Accept && y == Accept) && (m == Abort <==> x == Abort || (x == Accept && y == Abort))
  }

  predicate EitherOf(x: Outcome, y: Outcome, m: Outcome) {
    && (m == Accept <==> x == Accept || (x == Reject && y == Accept))
    && (m == Abort <==> x == Abort || (x == Reject && y == Abort))
  }

  predicate OppositeOf(x: Outcome, m: Outcome) {
    (m == Accept <==> x == Reject) && (m == Abort <==> x == Abort)
  }

  lemma OutcomesOf(x: Outcome, y: Outcome)
    ensures BothOf(x, y, And3(x, y)) && EitherOf(x, y, Or3(x, y)) && OppositeOf(x, Not3(x))
  {
  }

  lemma ConnectivesExact(f: Filter, env: Env, p: Packet)
    ensures f.Both? ==>
      BothOf(Meaning(f.left, env, p), Meaning(f.right, After(f.left, env), p), Meaning(f, env, p))
    ensures f.Either? ==>
      EitherOf(Meaning(f.left, env, p), Meaning(f.right, After(f.left, env), p), Meaning(f, env, p))
    ensures f.Negated? ==> OppositeOf(Meaning(f.f, env, p), Meaning(f, env, p))
  {
    match f {
      case Both(l, r) => OutcomesOf(Meaning(l, env, p), Meaning(r, After(l, env), p));
      case Either(l, r) => OutcomesOf(Meaning(l, env, p), Meaning(r, After(l, env), p));
      case Negated(g) => OutcomesOf(Meaning(g, env, p), Accept);
      case _ =>
    }
  }
}
