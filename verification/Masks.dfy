/** What the masks of the generated code select. */
module Masks {
  import opened Bpf

  /** A mask of `n` ones selects the remainder modulo a power of two. */
  lemma {:induction false} LowBits(x: nat, n: nat)
    ensures BitAnd(x, Pow2(n) - 1) == x % Pow2(n)
    decreases n
  {
    if n == 0 {
      assert Pow2(0) == 1 && BitAnd(x, 0) == 0;
    } else if x == 0 {
      assert BitAnd(0, Pow2(n) - 1) == 0;
    } else {
      var m := Pow2(n - 1);
      LowBits(x / 2, n - 1);
      LowBit(x, m);
      assert Pow2(n) == 2 * m;
    }
  }

  lemma LowBit(x: nat, m: nat)
    requires x > 0 && m > 0 && BitAnd(x / 2, m - 1) == x / 2 % m
    ensures BitAnd(x, 2 * m - 1) == x % (2 * m)
  {
    OddMask(x, m);
    HalfMod(x, m);
  }

  lemma OddMask(x: nat, m: nat)
    requires x > 0 && m > 0
    ensures BitAnd(x, 2 * m - 1) == 2 * BitAnd(x / 2, m - 1) + x % 2
  {
    assert (2 * m - 1) / 2 == m - 1 && (2 * m - 1) % 2 == 1;
  }

  lemma HalfMod(x: nat, m: nat)
    requires m > 0
    ensures x % (2 * m) == 2 * (x / 2 % m) + x % 2
  {
    var q, r := x / 2 / m, x / 2 % m;
    assert x / 2 == q * m + r;
    assert x == q * (2 * m) + (2 * r + x % 2) by { assert 2 * (q * m) == q * (2 * m); }
    ModUnique(x, 2 * m, q, 2 * r + x % 2);
  }

  lemma ModUnique(x: int, d: int, q: int, r: int)
    requires d > 0 && x == q * d + r && 0 <= r < d
    ensures x % d == r && x / d == q
  {
    var q', r' := x / d, x % d;
    assert x == q' * d + r';
    assert (q - q') * d == r' - r;
    assert q - q' >= 1 ==> (q - q') * d >= d;
    assert q - q' <= -1 ==> (q - q') * d <= -d;
  }

  /** A mask that ends in a zero ignores the lowest bit, */
  lemma EvenMask(x: nat, b: nat, c: nat)
    requires b == 2 * c
    ensures BitAnd(x, b) == 2 * BitAnd(x / 2, c)
  {
    assert b / 2 == c && b % 2 == 0;
  }

  /** and one that ends in four zeros the lowest four. */
  lemma ShiftMask(x: nat, b: nat, c: nat)
    requires b == 16 * c
    ensures BitAnd(x, b) == 16 * BitAnd(x / 16, c)
  {
    EvenMask(x, b, 8 * c);
    EvenMask(x / 2, 8 * c, 4 * c);
    EvenMask(x / 4, 4 * c, 2 * c);
    EvenMask(x / 8, 2 * c, c);
    assert x / 2 / 2 == x / 4 && x / 4 / 2 == x / 8 && x / 8 / 2 == x / 16;
  }

  lemma ShiftMaskFar(x: nat, b: nat, c: nat)
    requires b == 4096 * c
    ensures BitAnd(x, b) == 4096 * BitAnd(x / 4096, c)
  {
    ShiftMask(x, b, 256 * c);
    ShiftMask(x / 16, 256 * c, 16 * c);
    ShiftMask(x / 256, 16 * c, c);
    assert x / 16 / 16 == x / 256 && x / 256 / 16 == x / 4096;
  }

  /** A label is no more than 20 ones wide. */
  lemma LabelBits(y: nat, ones: nat)
    requires ones == 0xf_ffff && y < 0x10_0000
    ensures BitAnd(y, ones) == y
  {
    Powers();
    AllOnes(y, 20, ones);
  }

  lemma AllOnes(y: nat, n: nat, ones: nat)
    requires ones == Pow2(n) - 1 && y <= ones
    ensures BitAnd(y, ones) == y
  {
    LowBits(y, n);
  }

  lemma Powers()
    ensures Pow2(1) == 2 && Pow2(4) == 16 && Pow2(12) == 4096 && Pow2(13) == 8192 && Pow2(20) == 0x10_0000
  {
    assert Pow2(4) == 16;
    assert Pow2(8) == 256;
    assert Pow2(12) == 4096;
    assert Pow2(13) == 8192;
    assert Pow2(16) == 65536;
    assert Pow2(20) == 0x10_0000;
  }

  /** Bottom-of-stack bit. */
  lemma Mask1(x: nat)
    ensures BitAnd(x, 1) == x % 2
  {
    Powers();
    LowBits(x, 1);
  }

  /** VLAN identifier. */
  lemma MaskVlan(x: nat)
    ensures BitAnd(x, 0x0fff) == x % 4096
  {
    Powers();
    LowBits(x, 12);
  }

  /** Fragment offset. */
  lemma MaskFragment(x: nat)
    ensures BitAnd(x, 0x1fff) == x % 8192
  {
    Powers();
    LowBits(x, 13);
  }

  /** Version nibble of a byte. */
  lemma MaskVersion(x: Byte)
    ensures BitAnd(x, 0xf0) == x / 16 * 16
  {
    assert Pow2(4) == 16;
    ShiftMask(x, 0xf0, 15);
    LowBits(x / 16, 4);
  }

  /** MPLS label: the upper 20 bits of the word. */
  lemma MaskLabel(x: Word)
    ensures BitAnd(x, 0xffff_f000) == x / 4096 * 4096
  {
    ShiftMaskFar(x, 0xffff_f000, 0xf_ffff);
    LabelBits(x / 4096, 0xf_ffff);
  }

  lemma {:induction false} AllBits(a: nat, n: nat)
    requires a < Pow2(n)
    ensures BitAnd(a, Pow2(n) - 1) == a
    decreases n
  {
    if n > 0 {
      AllBits(a / 2, n - 1);
    }
  }

  /** A mask of ones in all 32 places keeps everything. */
  lemma OnesKept(a: Word)
    ensures BitAnd(a, 0xffff_ffff) == a
  {
    Pow2Of32();
    AllBits(a, 32);
  }
}
