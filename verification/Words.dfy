/** Fixed-width words as the authored kernels use them: 32-bit registers, 64-bit
    register pairs with an explicit carry, and 64-lane masks kept in a register pair. */
module Words {
  const TWO32: int := 0x1_0000_0000
  const TWO64: int := 0x1_0000_0000_0000_0000

  type U32 = x: int | 0 <= x < 0x1_0000_0000
  type U64 = x: int | 0 <= x < 0x1_0000_0000_0000_0000
  type Mask = m: seq<bool> | |m| == 64 witness seq(64, _ => false)

  function Pow2(n: nat): (p: nat)
    ensures p > 0
  {
    if n == 0 then 1 else 2 * Pow2(n - 1)
  }

  function Lo(x: U64): U32 { x % TWO32 }

  function Hi(x: U64): U32 { x / TWO32 }

  function Pair(lo: U32, hi: U32): U64 { lo + hi * TWO32 }

  /** Sum and carry-out of a 32-bit add with carry-in. */
  function Add32(a: U32, b: U32, carry: bool): U32 { (a + b + if carry then 1 else 0) % TWO32 }

  predicate Carry32(a: U32, b: U32, carry: bool) { a + b + (if carry then 1 else 0) >= TWO32 }

  function Shl32(x: U32, amount: nat): U32 { x * Pow2(amount) % TWO32 }

  function Shl64(x: U64, amount: nat): U64 { x * Pow2(amount) % TWO64 }

  /** Bitwise exclusive or, bit by bit from the low end. */
  function Xor(a: nat, b: nat): nat {
    if a == 0 && b == 0 then 0
    else 2 * Xor(a / 2, b / 2) + if a % 2 != b % 2 then 1 else 0
  }

  lemma {:induction false} XorBound(a: nat, b: nat, width: nat)
    requires a < Pow2(width) && b < Pow2(width)
    ensures Xor(a, b) < Pow2(width)
  {
    if width > 0 { XorBound(a / 2, b / 2, width - 1); }
  }

  function Xor32(a: U32, b: U32): U32 {
    Pow2Of64();
    XorBound(a, b, 32);
    Xor(a, b)
  }

  lemma {:induction false} XorZero(a: nat)
    ensures Xor(a, 0) == a
  {
    if a != 0 { XorZero(a / 2); }
  }

  /** Exclusive or with one bit flips that bit and keeps the rest. */
  lemma {:induction false} XorFlipsBit(a: nat, k: nat)
    ensures Xor(a, Pow2(k)) == if a / Pow2(k) % 2 == 0 then a + Pow2(k) else a - Pow2(k)
  {
    if k == 0 {
      XorZero(a / 2);
    } else {
      var p := Pow2(k - 1);
      XorFlipsBit(a / 2, k - 1);
      HalveTwice(a, p);
      XorDouble(a, p);
    }
  }

  lemma XorDouble(a: nat, p: nat)
    requires p > 0
    ensures Xor(a, 2 * p) == 2 * Xor(a / 2, p) + a % 2
  {
    var q := 2 * p;
    assert q / 2 == p && q % 2 == 0;
    assert Xor(a, q) == 2 * Xor(a / 2, q / 2) + if a % 2 != q % 2 then 1 else 0;
  }

  lemma HalveTwice(a: nat, p: nat)
    requires p > 0
    ensures a / 2 / p == a / (2 * p)
  {
    var q := a / 2 / p;
    var r := a / 2 % p;
    assert a == 2 * (q * p + r) + a % 2;
    assert 2 * r + a % 2 < 2 * p;
    assert a == q * (2 * p) + (2 * r + a % 2) by { assert 2 * (q * p) == q * (2 * p); }
    QuotientIs(a, 2 * p, q, 2 * r + a % 2);
  }

  lemma QuotientIs(a: int, d: nat, q: int, r: nat)
    requires 0 <= r < d && a == q * d + r
    ensures a / d == q && a % d == r
  {
    var e := a / d;
    assert a == d * e + a % d;
    if e < q { ScaleAtLeast(q - e, d); } else if q < e { ScaleAtLeast(e - q, d); }
    assert e == q;
  }

  lemma ScaleAtLeast(k: int, d: int)
    requires k >= 1 && d >= 0
    ensures k * d >= d
  {
    assert (k - 1) * d >= 0;
  }

  // ---- Wrapping 32-bit arithmetic ----

  function Wrap(x: nat): U32 { x % TWO32 }

  function Add(x: U32, y: U32): U32 { Wrap(x + y) }

  function Mul(x: U32, y: U32): U32 { Wrap(x * y) }

  lemma WrapSmall(x: U32)
    ensures Wrap(x) == x
  {
  }

  lemma WrapMultiple(q: nat, x: nat)
    ensures Wrap(q * TWO32 + x) == Wrap(x)
  {
    QuotientIs(q * TWO32 + x, TWO32, q + x / TWO32, x % TWO32);
  }

  /** Wrapping one summand first changes nothing. */
  lemma WrapOnce(x: nat, y: nat)
    ensures Wrap(Wrap(x) + y) == Wrap(x + y)
  {
    var q := x / TWO32;
    assert x == q * TWO32 + Wrap(x);
    hide Wrap;
    WrapMultiple(q, Wrap(x) + y);
  }

  lemma AddWraps(x: nat, y: nat)
    ensures Add(Wrap(x), Wrap(y)) == Wrap(x + y)
  {
    hide Wrap;
    WrapOnce(x, Wrap(y));
    WrapOnce(y, x);
  }

  lemma MulAddWraps(v: U32, scale: U32, bias: U32)
    ensures Add(Mul(v, scale), bias) == Wrap(v * scale + bias)
  {
    WrapOnce(v * scale, bias);
  }

  /** A 64-bit sum built from halves: one 32-bit add, then one with its carry. */
  lemma CarryChain(base: U64, offset: U64)
    ensures var carry := Carry32(Lo(base), Lo(offset), false);
      Pair(Add32(Lo(base), Lo(offset), false), Add32(Hi(base), Hi(offset), carry)) == (base + offset) % TWO64
  {
    var low, high := Lo(base) + Lo(offset), Hi(base) + Hi(offset);
    assert base + offset == low + high * TWO32;
    if low >= TWO32 {
      assert low % TWO32 == low - TWO32;
      WrapHigh(low - TWO32, high + 1);
    } else {
      WrapHigh(low, high);
    }
  }

  lemma PairOfHalves(x: U64)
    ensures Pair(Lo(x), Hi(x)) == x
  {
  }

  lemma SmallHalves(x: U32)
    ensures Lo(x) == x && Hi(x) == 0
  {
  }

  lemma AddSmall(a: U32, b: U32)
    requires a + b < TWO32
    ensures Add32(a, b, false) == a + b
  {
  }

  lemma WrapHigh(low: U32, high: nat)
    requires high < 2 * TWO32
    ensures Pair(low, high % TWO32) == (low + high * TWO32) % TWO64
  {
    if high < TWO32 {
      assert low + high * TWO32 < TWO64;
    } else {
      assert high % TWO32 == high - TWO32;
      assert low + high * TWO32 == low + (high - TWO32) * TWO32 + TWO64;
    }
  }

  /** Shifting a small index left by two is multiplying it by the word size. */
  lemma ShiftByTwo(x: nat)
    requires x < 0x4000_0000
    ensures Shl32(x, 2) == 4 * x
    ensures Lo(Shl64(Pair(x, 0), 2)) == 4 * x && Hi(Shl64(Pair(x, 0), 2)) == 0
  {
    assert Pow2(2) == 4;
  }

  lemma ShiftIndex(x: U32)
    ensures Shl64(Pair(x, 0), 2) == 4 * x
  {
    assert Pow2(2) == 4;
  }

  lemma AddCommutes(a: U32, b: U32, carry: bool)
    ensures Add32(a, b, carry) == Add32(b, a, carry)
  {
  }

  // ---- Masks in a register pair ----

  function MaskBits(m: seq<bool>): (n: nat)
    ensures n < Pow2(|m|)
  {
    if |m| == 0 then 0 else (if m[0] then 1 else 0) + 2 * MaskBits(m[1..])
  }

  function BitsMask(n: nat, width: nat): (m: seq<bool>)
    ensures |m| == width
  {
    if width == 0 then [] else [n % 2 == 1] + BitsMask(n / 2, width - 1)
  }

  lemma {:induction false} MaskRoundTrip(m: seq<bool>)
    ensures BitsMask(MaskBits(m), |m|) == m
  {
    if |m| > 0 {
      MaskRoundTrip(m[1..]);
      assert MaskBits(m) / 2 == MaskBits(m[1..]);
      assert m == [m[0]] + m[1..];
    }
  }

  lemma Pow2Of64()
    ensures Pow2(64) == TWO64 && Pow2(32) == TWO32
  {
    assert Pow2(8) == 256;
    Pow2Sum(8, 8);
    assert Pow2(16) == 0x1_0000 by { assert 8 + 8 == 16; }
    Pow2Sum(16, 16);
    assert Pow2(32) == TWO32 by { assert 16 + 16 == 32; }
    Pow2Sum(32, 32);
  }

  lemma {:induction false} Pow2Sum(a: nat, b: nat)
    ensures Pow2(a + b) == Pow2(a) * Pow2(b)
  {
    if a > 0 { Pow2Sum(a - 1, b); }
  }

  function MaskToWord(m: Mask): U64 {
    Pow2Of64();
    MaskBits(m)
  }

  function WordToMask(x: U64): Mask { BitsMask(x, 64) }

  /** Saving a mask into a register pair and moving it back gives the mask. */
  lemma SavedMaskRestores(m: Mask)
    ensures WordToMask(Pair(Lo(MaskToWord(m)), Hi(MaskToWord(m)))) == m
  {
    MaskRoundTrip(m);
  }
}
