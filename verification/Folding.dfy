/** Folding of constants: what it computes, and when that is what the machine computes. */
module Folding {
  import opened Bpf

  /** Nothing happens to the accumulator. */
  predicate NoEffect(s: Stmt) {
    s.k == 0 && (s.code == AluK(Add) || s.code == AluK(Lsh) || s.code == AluK(Rsh) || s.code == AluK(Or))
  }

  /** The accumulator becomes 0. */
  predicate Clears(s: Stmt) {
    s.k == 0 && (s.code == AluK(Mul) || s.code == AluK(And))
  }

  lemma ByZero(op: AluOp, a: Word)
    ensures op.Add? || op.Or? || op.Lsh? || op.Rsh? ==> Alu(op, a, 0) == Some(a)
    ensures op.Mul? || op.And? ==> Alu(op, a, 0) == Some(0)
  {
    assert Pow2(0) == 1 && a as int / 1 == a && BitAnd(a, 0) == 0;
  }

  /** Statements that change nothing whatever the accumulator is; a subtraction of 0 is
      kept, since the code of comparisons counts on it. */
  lemma NoEffectExact(s: Stmt)
    requires s.code.AluK?
    ensures NoEffect(s) <==>
      s.k == 0 && s.code.op != Sub &&
        forall a: Word {:trigger Alu(s.code.op, a, s.k)} :: Alu(s.code.op, a, s.k) == Some(a)
  {
    forall a: Word ensures NoEffect(s) ==> Alu(s.code.op, a, s.k) == Some(a) {
      ByZero(s.code.op, a);
    }
    ByZero(s.code.op, 1);
    assert Alu(s.code.op, 1, s.k) == Alu(s.code.op, 1, s.k);
  }

  /** Statements that leave 0 whatever the accumulator is. */
  lemma ClearsExact(s: Stmt)
    requires s.code.AluK?
    ensures Clears(s) <==>
      s.k == 0 && forall a: Word {:trigger Alu(s.code.op, a, s.k)} :: Alu(s.code.op, a, s.k) == Some(0)
  {
    forall a: Word ensures Clears(s) ==> Alu(s.code.op, a, s.k) == Some(0) {
      ByZero(s.code.op, a);
    }
    ByZero(s.code.op, 1);
    assert Alu(s.code.op, 1, s.k) == Alu(s.code.op, 1, s.k);
  }

  /** Division that truncates toward zero. */
  function TruncDiv(a: int, b: int): int
    requires b != 0
  {
    if a >= 0 then (if b > 0 then a / b else -(a / -b))
    else (if b > 0 then -(-a / b) else -a / -b)
  }

  /** Operands on which folding has a result: shifts are by less than the width of a word,
      and the one quotient that overflows is left out. Sums, differences, products and
      left shifts that overflow, which the source language leaves undefined too, are
      taken to wrap. */
  predicate FoldDefined(op: AluOp, a: Word, b: Word) {
    match op
    case Div => b != 0 && !(a == 0x8000_0000 && b == 0xffff_ffff)
    case Lsh => b < 32
    case Rsh => b < 32
    case _ => true
  }

  /** What folding computes: its operands are signed, so division truncates and a right
      shift copies the sign. */
  function Folded(op: AluOp, a: Word, b: Word): Word
    requires FoldDefined(op, a, b)
  {
    match op
    case Add => Wrap(Signed(a) + Signed(b))
    case Sub => Wrap(Signed(a) - Signed(b))
    case Mul => Wrap(Signed(a) * Signed(b))
    case Div => Wrap(TruncDiv(Signed(a), Signed(b)))
    case Or => OrWord(a, b)
    case And => BitAnd(a, b)
    case Lsh => Wrap(Signed(a) * Pow2(b))
    case Rsh => Wrap(Signed(a) / Pow2(b))
  }

  /** The constants on which folding agrees with the machine's unsigned arithmetic. */
  predicate FoldAgrees(op: AluOp, a: Word, b: Word) {
    match op
    case Div =>
      b != 0 &&
      (if b < 0x8000_0000 then a < 0x8000_0000 || b == 1
       else if a < 0x8000_0000 then a < WORD_LIMIT - b
       else a == b)
    case Lsh => b < 32
    case Rsh => b < 32 && (a < 0x8000_0000 || b == 0)
    case _ => true
  }

  lemma WrapMod(x: int, y: int, q: int)
    requires x == y + q * WORD_LIMIT
    ensures Wrap(x) == Wrap(y)
  {
  }

  function Carry(a: Word): (r: int)
    ensures Signed(a) == a + r * WORD_LIMIT
  {
    if a < 0x8000_0000 then 0 else -1
  }

  lemma MulWrap(a: Word, c: int)
    ensures Wrap(Signed(a) * c) == Wrap(a * c)
  {
    var r := Carry(a);
    assert Signed(a) * c == a * c + (r * c) * WORD_LIMIT;
    WrapMod(Signed(a) * c, a * c, r * c);
  }

  lemma FoldMul(a: Word, b: Word)
    ensures Wrap(Signed(a) * Signed(b)) == Wrap(a * b)
  {
    MulWrap(a, Signed(b));
    MulWrap(b, a);
    assert a * Signed(b) == Signed(b) * a && a * b == b * a;
  }

  lemma MulMono(q: nat, k: nat, d: nat)
    requires k <= d
    ensures q * k <= q * d
  {
  }

  lemma DivSmall(n: nat, d: nat)
    requires d > 0
    ensures n / d <= n && (d >= 2 ==> 2 * (n / d) <= n) && (n < d ==> n / d == 0) && (d <= n ==> n / d >= 1)
  {
    var q := n / d;
    assert n == q * d + n % d;
    MulMono(q, 1, d);
    if d >= 2 {
      MulMono(q, 2, d);
    }
    if q >= 1 {
      MulMono(d, 1, q);
    }
  }

  lemma DivOne(n: nat, d: nat)
    requires 0 < d <= n < 2 * d
    ensures n / d == 1
  {
    var q := n / d;
    assert n == q * d + n % d;
    assert q >= 2 ==> q * d >= 2 * d;
    assert q == 0 ==> q * d == 0;
  }

  lemma FoldDivSmallSmall(a: Word, b: Word)
    requires 0 < b < 0x8000_0000 && a < 0x8000_0000
    ensures Wrap(TruncDiv(Signed(a), Signed(b))) == a / b
  {
    DivSmall(a, b);
  }

  lemma FoldDivSmallBig(a: Word, b: Word)
    requires b >= 0x8000_0000 && a < 0x8000_0000
    ensures Wrap(TruncDiv(Signed(a), Signed(b))) == a / b <==> a < WORD_LIMIT - b
  {
    var d: nat := WORD_LIMIT - b;
    var q := a as int / d;
    DivSmall(a, b);
    DivSmall(a, d);
    assert TruncDiv(Signed(a), Signed(b)) == -q;
  }

  lemma FoldDivBigSmall(a: Word, b: Word)
    requires 0 < b < 0x8000_0000 && a >= 0x8000_0000
    ensures Wrap(TruncDiv(Signed(a), Signed(b))) == Wrap(a / b) <==> b == 1
  {
    var c: nat := WORD_LIMIT - a;
    var q: int, m: int := c / b, a / b;
    DivSmall(a, b);
    DivSmall(c, b);
    assert TruncDiv(Signed(a), Signed(b)) == -q;
    if b == 1 {
      assert q == c && m == a;
    } else {
      SignsApart(q, m);
    }
  }

  lemma SignsApart(q: int, m: int)
    requires 0 <= q <= 0x4000_0000 && 1 <= m < 0x8000_0000
    ensures Wrap(-q) != Wrap(m)
  {
    var n: int := -q;
    assert Wrap(m) == m && Wrap(n) == if q == 0 then 0 else WORD_LIMIT + n;
  }

  lemma FoldDivBigBig(a: Word, b: Word)
    requires b >= 0x8000_0000 && a >= 0x8000_0000
    ensures Wrap(TruncDiv(Signed(a), Signed(b))) == a / b <==> a == b
  {
    var c: nat, d: nat := WORD_LIMIT - a, WORD_LIMIT - b;
    var q := c / d;
    DivSmall(c, d);
    DivSmall(a, b);
    assert TruncDiv(Signed(a), Signed(b)) == q;
    if a >= b {
      DivOne(a, b);
      if a == b {
        DivOne(c, d);
      }
    }
  }

  lemma FoldDiv(a: Word, b: Word)
    requires b != 0
    ensures Wrap(TruncDiv(Signed(a), Signed(b))) == Wrap(a / b) <==> FoldAgrees(Div, a, b)
  {
    DivSmall(a, b);
    if b < 0x8000_0000 {
      if a < 0x8000_0000 { FoldDivSmallSmall(a, b); } else { FoldDivBigSmall(a, b); }
    } else {
      if a < 0x8000_0000 { FoldDivSmallBig(a, b); } else { FoldDivBigBig(a, b); }
    }
  }

  lemma {:induction false} Pow2Double(n: nat)
    requires n > 0
    ensures Pow2(n) >= 2
  {
  }

  lemma FoldRsh(a: Word, b: Word)
    requires b < 32
    ensures Wrap(Signed(a) / Pow2(b)) == Wrap(a / Pow2(b)) <==> FoldAgrees(Rsh, a, b)
  {
    if a >= 0x8000_0000 {
      if b == 0 {
        assert Pow2(0) == 1 && Signed(a) / 1 == Signed(a) && a as int / 1 == a;
        WrapMod(Signed(a), a, Carry(a));
      } else {
        Pow2Double(b);
        FoldRshBig(a, Pow2(b));
      }
    }
  }

  lemma FoldRshBig(a: Word, d: nat)
    requires a >= 0x8000_0000 && d >= 2
    ensures Wrap(Signed(a) / d) != Wrap(a / d)
  {
    DivSmall(a, d);
    FloorNeg(WORD_LIMIT - a, d);
    assert Signed(a) == -(WORD_LIMIT - a);
    Apart(Signed(a) / d, a / d);
  }

  lemma Apart(q: int, m: int)
    requires -0x4000_0000 <= q <= -1 && 0 <= m < 0x8000_0000
    ensures Wrap(q) != Wrap(m)
  {
  }

  /** A negative number, however far shifted, keeps its sign. */
  lemma FloorNeg(c: int, d: int)
    requires 0 < c <= 0x8000_0000 && d >= 2
    ensures -0x4000_0000 <= -c / d <= -1
  {
    var q := -c / d;
    assert -c == q * d + -c % d;
    assert q >= 0 ==> q * d >= 0;
    assert q + 1 <= -0x4000_0000 ==> (q + 1) * d <= -0x4000_0000 * 2;
    assert q * d + d == (q + 1) * d;
  }

  /** Folding gives what the machine would compute exactly when the operands are as
      `FoldAgrees` says. */
  lemma FoldExact(op: AluOp, a: Word, b: Word)
    requires FoldDefined(op, a, b)
    ensures Alu(op, a, b) == Some(Folded(op, a, b)) <==> FoldAgrees(op, a, b)
  {
    match op {
      case Add =>
        var r, s := Carry(a), Carry(b);
        WrapMod(Signed(a) + Signed(b), a + b, r + s);
      case Sub =>
        var r, s := Carry(a), Carry(b);
        WrapMod(Signed(a) - Signed(b), a as int - b, r - s);
      case Mul => FoldMul(a, b);
      case Div => FoldDiv(a, b);
      case Lsh => MulWrap(a, Pow2(b));
      case Rsh => FoldRsh(a, b);
      case _ =>
    }
  }

  /** A constant shifted right, as the machine does it and as folding does. */
  lemma FoldDisagrees()
    ensures FoldDefined(Rsh, 0x8000_0000, 1) && Alu(Rsh, 0x8000_0000, 1) == Some(0x4000_0000)
    ensures Folded(Rsh, 0x8000_0000, 1) == 0xc000_0000
  {
    assert Pow2(1) == 2 && Signed(0x8000_0000) / 2 == -0x4000_0000;
  }
}
