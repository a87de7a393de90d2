/** Numbers as the bytes of a packet give them, and words as their bits: what loads,
    comparisons and logical operations amount to. */
module Wire {
  import opened Bpf
  import opened Masks

  // ----- bytes

  /** The number whose `n` bytes, the highest first, stand at `at`. */
  function Number(d: seq<Byte>, at: nat, n: nat): (r: nat)
    requires at + n <= |d|
  {
    if n == 0 then 0 else 256 * Number(d, at, n - 1) + d[at + n - 1]
  }

  /** A load takes 1, 2 or 4 bytes, all of which the packet must hold. */
  lemma LoadIs(p: Packet, at: nat, size: Size)
    ensures
      var n := match size case ByteSize => 1 case HalfSize => 2 case WordSize => 4;
      match Load(p, at, size)
      case None => at + n > |p.data|
      case Some(v) => at + n <= |p.data| && v == Number(p.data, at, n)
  {
    var n := match size case ByteSize => 1 case HalfSize => 2 case WordSize => 4;
    if at + n <= |p.data| {
      NumberBytes(p.data, at, n);
    }
  }

  lemma NumberBytes(d: seq<Byte>, at: nat, n: nat)
    requires at + n <= |d| && (n == 1 || n == 2 || n == 4)
    ensures Number(d, at, n) ==
      if n == 1 then d[at] as int
      else if n == 2 then 256 * (d[at] as int) + d[at + 1]
      else 0x100_0000 * (d[at] as int) + 0x1_0000 * (d[at + 1] as int) + 256 * (d[at + 2] as int) + d[at + 3]
  {
    assert Number(d, at, 0) == 0;
    assert Number(d, at, 1) == d[at];
    if n > 1 {
      assert Number(d, at, 2) == 256 * Number(d, at, 1) + d[at + 1];
    }
    if n == 4 {
      assert Number(d, at, 3) == 256 * Number(d, at, 2) + d[at + 2];
      assert Number(d, at, 4) == 256 * Number(d, at, 3) + d[at + 3];
    }
  }

  // ----- bits

  /** Bit `i`, the lowest being bit 0. */
  predicate Bit(x: nat, i: nat) {
    if i == 0 then x % 2 == 1 else Bit(x / 2, i - 1)
  }

  lemma {:induction false} NoBit(i: nat)
    ensures !Bit(0, i)
  {
    if i > 0 {
      NoBit(i - 1);
    }
  }

  lemma {:induction false} AndBit(a: nat, b: nat, i: nat)
    ensures Bit(BitAnd(a, b), i) <==> Bit(a, i) && Bit(b, i)
    decreases i
  {
    if a == 0 || b == 0 {
      NoBit(i);
    } else if i > 0 {
      assert BitAnd(a, b) / 2 == BitAnd(a / 2, b / 2);
      AndBit(a / 2, b / 2, i - 1);
    }
  }

  lemma OrHalf(a: nat, b: nat)
    ensures BitOr(a, b) / 2 == BitOr(a / 2, b / 2)
    ensures BitOr(a, b) % 2 == 1 <==> a % 2 == 1 || b % 2 == 1
  {
    if a == 0 {
      assert BitAnd(a, b) == 0 && BitAnd(a / 2, b / 2) == 0;
    } else if b == 0 {
      assert BitAnd(a, b) == 0 && BitAnd(a / 2, b / 2) == 0;
    }
  }

  lemma {:induction false} OrBit(a: nat, b: nat, i: nat)
    ensures Bit(BitOr(a, b), i) <==> Bit(a, i) || Bit(b, i)
    decreases i
  {
    OrHalf(a, b);
    if i > 0 {
      OrBit(a / 2, b / 2, i - 1);
    }
  }

  /** A number other than 0 has a bit. */
  lemma {:induction false} SomeBit(x: nat) returns (i: nat)
    requires x > 0
    ensures Bit(x, i)
  {
    if x % 2 == 1 {
      i := 0;
    } else {
      var j := SomeBit(x / 2);
      i := j + 1;
    }
  }

  /** Numbers with the same bits are the same. */
  lemma {:induction false} SameBits(x: nat, y: nat)
    requires forall i: nat {:trigger Bit(x, i)} {:trigger Bit(y, i)} :: Bit(x, i) <==> Bit(y, i)
    ensures x == y
    decreases x + y
  {
    assert Bit(x, 0) <==> Bit(y, 0);
    if x + y > 0 {
      forall i: nat ensures Bit(x / 2, i) <==> Bit(y / 2, i) {
        assert Bit(x, i + 1) <==> Bit(y, i + 1);
      }
      SameBits(x / 2, y / 2);
    }
  }

  /** The bits of `x` that `mask` selects. */
  ghost predicate Selects(mask: nat, x: nat, y: nat) {
    forall i: nat {:trigger Bit(y, i)} :: Bit(y, i) <==> Bit(x, i) && Bit(mask, i)
  }

  lemma SelectsAnd(mask: nat, x: nat, y: nat)
    ensures Selects(mask, x, y) <==> y == BitAnd(x, mask)
  {
    forall i: nat ensures Bit(BitAnd(x, mask), i) <==> Bit(x, i) && Bit(mask, i) {
      AndBit(x, mask, i);
    }
    if Selects(mask, x, y) {
      SameBits(y, BitAnd(x, mask));
    }
  }

  // ----- comparisons and operations

  /** How two numbers compare; `Jset`: they have a bit in common. */
  ghost predicate Relates(op: JmpOp, x: nat, y: nat) {
    match op
    case Jeq => x == y
    case Jgt => x > y
    case Jge => x >= y
    case Jset => exists i: nat {:trigger Bit(x, i)} {:trigger Bit(y, i)} :: Bit(x, i) && Bit(y, i)
  }

  lemma CompareIs(op: JmpOp, x: Word, y: Word)
    ensures Compare(op, x, y) <==> Relates(op, x, y)
  {
    if op.Jset? {
      if BitAnd(x, y) != 0 {
        var i := SomeBit(BitAnd(x, y));
        AndBit(x, y, i);
      }
      if i: nat :| Bit(x, i) && Bit(y, i) {
        AndBit(x, y, i);
        NoBit(i);
      }
    }
  }

  function Halved(a: nat, n: nat): nat
    decreases n
  {
    if n == 0 then a else Halved(a / 2, n - 1)
  }

  function Doubled(a: nat, n: nat): nat {
    if n == 0 then a else 2 * Doubled(a, n - 1)
  }

  lemma {:induction false} HalvedIs(a: nat, n: nat)
    ensures a / Pow2(n) == Halved(a, n)
    decreases n
  {
    if n == 0 {
      assert Pow2(0) == 1 && a / 1 == a;
    } else {
      HalvedIs(a / 2, n - 1);
      HalfDiv(a, Pow2(n - 1));
    }
  }

  lemma {:induction false} DoubledIs(a: nat, n: nat)
    ensures a * Pow2(n) == Doubled(a, n)
  {
    if n == 0 {
      assert Pow2(0) == 1;
    } else {
      DoubledIs(a, n - 1);
      TwiceProduct(a, Pow2(n - 1));
    }
  }

  lemma TwiceProduct(a: int, m: int)
    ensures a * (2 * m) == 2 * (a * m)
  {
  }

  lemma {:induction false} ShiftedDown(a: nat, n: nat, i: nat)
    ensures Bit(Halved(a, n), i) <==> Bit(a, i + n)
    decreases n
  {
    if n > 0 {
      ShiftedDown(a / 2, n - 1, i);
    }
  }

  lemma HalfDiv(a: nat, m: nat)
    requires m > 0
    ensures a / (2 * m) == a / 2 / m
  {
    var q, r := a / 2 / m, a / 2 % m;
    assert a / 2 == q * m + r;
    assert a == q * (2 * m) + (2 * r + a % 2) by { assert 2 * (q * m) == q * (2 * m); }
    ModUnique(a, 2 * m, q, 2 * r + a % 2);
  }

  lemma {:induction false} ShiftedUp(a: nat, n: nat, i: nat)
    ensures Bit(Doubled(a, n), i) <==> i >= n && Bit(a, i - n)
    decreases n
  {
    if n > 0 && i > 0 {
      assert Doubled(a, n) / 2 == Doubled(a, n - 1);
      ShiftedUp(a, n - 1, i - 1);
    }
  }

  lemma {:induction false} LowestBits(x: nat, n: nat, i: nat)
    ensures Bit(x % Pow2(n), i) <==> i < n && Bit(x, i)
    decreases n
  {
    if n == 0 {
      assert Pow2(0) == 1 && x % 1 == 0;
      NoBit(i);
    } else {
      HalfRest(x, Pow2(n - 1));
      if i > 0 {
        LowestBits(x / 2, n - 1, i - 1);
      }
    }
  }

  lemma HalfRest(x: nat, m: nat)
    requires m > 0
    ensures x % (2 * m) % 2 == x % 2 && x % (2 * m) / 2 == x / 2 % m
  {
    HalfMod(x, m);
  }

  /** Bit `i` of the result of a logical operation. */
  predicate BitOf(op: AluOp, a: nat, b: nat, i: nat)
    requires op.And? || op.Or? || op.Lsh? || op.Rsh?
  {
    match op
    case And => Bit(a, i) && Bit(b, i)
    case Or => Bit(a, i) || Bit(b, i)
    case Lsh => i < 32 && i >= b && Bit(a, i - b)
    case Rsh => Bit(a, i + b)
  }

  lemma UpBits(a: Word, b: Word, i: nat)
    ensures Bit(Wrap(a * Pow2(b)), i) <==> i < 32 && i >= b && Bit(a, i - b)
  {
    Pow2Of32();
    DoubledIs(a, b);
    ShiftedUp(a, b, i);
    LowestBits(Doubled(a, b), 32, i);
  }

  lemma DownBits(a: Word, b: Word, i: nat)
    ensures Bit(Wrap(a / Pow2(b)), i) <==> Bit(a, i + b)
  {
    HalvedIs(a, b);
    ShiftedDown(a, b, i);
    HalvedLess(a, b);
  }

  lemma {:induction false} HalvedLess(a: nat, n: nat)
    ensures Halved(a, n) <= a
    decreases n
  {
    if n > 0 {
      HalvedLess(a / 2, n - 1);
    }
  }

  lemma AluBits(op: AluOp, a: Word, b: Word, i: nat)
    requires op.And? || op.Or? || op.Lsh? || op.Rsh?
    ensures Alu(op, a, b).Some? && (Bit(Alu(op, a, b).value, i) <==> BitOf(op, a, b, i))
  {
    if op.And? {
      AndBit(a, b, i);
    } else if op.Or? {
      OrBit(a, b, i);
    } else if op.Lsh? {
      UpBits(a, b, i);
    } else {
      DownBits(a, b, i);
    }
  }

  lemma QuotientLess(a: Word, m: nat)
    requires m > 0
    ensures 0 <= a / m < WORD_LIMIT
  {
    var q := a / m;
    assert a == q * m + a % m;
    assert q >= WORD_LIMIT ==> q * m >= WORD_LIMIT * 1;
  }
}
