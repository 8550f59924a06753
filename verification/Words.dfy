/** Fixed-width unsigned integers, and the 64-bit word operations written out on naturals. */
module Words {
  const TWO64: int := 0x1_0000_0000_0000_0000
  const TWO32: int := 0x1_0000_0000

  type u8 = x: int | 0 <= x < 0x100
  type u16 = x: int | 0 <= x < 0x1_0000
  type u32 = x: int | 0 <= x < 0x1_0000_0000
  type u64 = x: int | 0 <= x < 0x1_0000_0000_0000_0000

  /** Bit i of w, bit 0 being the least significant. */
  predicate Bit(w: nat, i: nat) {
    if i == 0 then w % 2 == 1 else Bit(w / 2, i - 1)
  }

  function Pow2(n: nat): (p: nat)
    ensures p > 0
  {
    if n == 0 then 1 else 2 * Pow2(n - 1)
  }

  /** w << n on 64 bits: every step drops the bit that leaves the word. */
  function Shl(w: u64, n: nat): u64
    decreases n
  {
    if n == 0 then w else Shl(w * 2 % TWO64, n - 1)
  }

  /** w >> n. */
  function Shr(w: nat, n: nat): (r: nat)
    ensures r <= w
  {
    if n == 0 then w else Shr(w / 2, n - 1)
  }

  function Or(x: nat, y: nat): nat
    decreases x + y
  {
    if x == 0 then y else if y == 0 then x
    else 2 * Or(x / 2, y / 2) + (if x % 2 == 1 || y % 2 == 1 then 1 else 0)
  }

  function And(x: nat, y: nat): nat
    decreases x + y
  {
    if x == 0 || y == 0 then 0
    else 2 * And(x / 2, y / 2) + (if x % 2 == 1 && y % 2 == 1 then 1 else 0)
  }

  lemma {:induction false} BitOfZero(i: nat)
    ensures !Bit(0, i)
  {
    if i > 0 { BitOfZero(i - 1); }
  }

  lemma OrHalves(x: nat, y: nat)
    ensures Or(x, y) / 2 == Or(x / 2, y / 2) && (Or(x, y) % 2 == 1 <==> x % 2 == 1 || y % 2 == 1)
  {
  }

  lemma AndHalves(x: nat, y: nat)
    ensures And(x, y) / 2 == And(x / 2, y / 2) && (And(x, y) % 2 == 1 <==> x % 2 == 1 && y % 2 == 1)
  {
  }

  lemma {:induction false} BitOr(x: nat, y: nat, i: nat)
    ensures Bit(Or(x, y), i) == (Bit(x, i) || Bit(y, i))
  {
    OrHalves(x, y);
    if i > 0 { BitOr(x / 2, y / 2, i - 1); }
  }

  lemma {:induction false} BitAnd(x: nat, y: nat, i: nat)
    ensures Bit(And(x, y), i) == (Bit(x, i) && Bit(y, i))
  {
    AndHalves(x, y);
    if i > 0 { BitAnd(x / 2, y / 2, i - 1); }
  }

  lemma {:induction false} BitShr(w: nat, n: nat, i: nat)
    ensures Bit(Shr(w, n), i) == Bit(w, i + n)
  {
    if n > 0 { BitShr(w / 2, n - 1, i); }
  }

  /** A value below 2^k has no bit at or above k. */
  lemma {:induction false} BitAbove(w: nat, k: nat, i: nat)
    requires w < Pow2(k) && k <= i
    ensures !Bit(w, i)
  {
    if k == 0 { BitOfZero(i); } else { BitAbove(w / 2, k - 1, i - 1); }
  }

  /** Reduction modulo 2^k keeps the bits below k. */
  lemma {:induction false} BitMod(w: nat, k: nat, i: nat)
    requires i < k
    ensures Bit(w % Pow2(k), i) == Bit(w, i)
  {
    var h := Pow2(k - 1);
    ModTwice(w, h);
    if i > 0 { BitMod(w / 2, k - 1, i - 1); }
  }

  lemma ModTwice(w: nat, h: nat)
    requires h > 0
    ensures (w % (2 * h)) / 2 == (w / 2) % h
    ensures (w % (2 * h)) % 2 == w % 2
  {
    var q, r := (w / 2) / h, (w / 2) % h;
    assert w / 2 == q * h + r;
    var low := w % 2;
    assert w == q * (2 * h) + (2 * r + low);
    EuclideanUnique(w, 2 * h, q, 2 * r + low);
  }

  lemma EuclideanUnique(w: int, d: int, q: int, r: int)
    requires d > 0 && 0 <= r < d && w == q * d + r
    ensures w / d == q && w % d == r
  {
    var x := w / d - q;
    Distribute(d, w / d, q);
    assert d * x == r - w % d;
    if x > 0 { MulAtLeast(d, x); }
    if x < 0 { MulAtLeast(d, -x); Distribute(d, 0, -x); }
  }

  lemma Distribute(d: int, a: int, b: int)
    ensures d * (a - b) == d * a - d * b
  {
  }

  lemma {:induction false} MulAtLeast(d: int, x: int)
    requires d > 0 && x > 0
    ensures d * x >= d
  {
    if x > 1 { MulAtLeast(d, x - 1); Distribute(d, x, 1); }
  }

  lemma TwoTo16()
    ensures Pow2(16) == 0x1_0000
  {
    Pow2Add(8, 8);
    assert Pow2(8) == 256;
  }

  lemma TwoTo32()
    ensures Pow2(32) == TWO32
  {
    var n := 16;
    TwoTo16();
    Pow2Add(n, n);
  }

  lemma TwoTo64()
    ensures Pow2(64) == TWO64
  {
    var n := 32;
    TwoTo32();
    Pow2Add(n, n);
  }

  lemma {:induction false} Pow2Add(a: nat, b: nat)
    ensures Pow2(a + b) == Pow2(a) * Pow2(b)
  {
    if a > 0 { Pow2Add(a - 1, b); }
  }

  lemma {:induction false} BitShl(w: u64, n: nat, i: nat)
    requires i < 64
    ensures Bit(Shl(w, n), i) == (n <= i && Bit(w, i - n))
    decreases n
  {
    if n > 0 {
      var d := w * 2 % TWO64;
      BitShl(d, n - 1, i);
      if n - 1 <= i {
        TwoTo64();
        BitMod(w * 2, 64, i - (n - 1));
        if n <= i { assert w * 2 / 2 == w; }
      }
    }
  }

  /** Testing one bit with a mask, as `x & (1 << b) == 0` does. */
  lemma MaskTest(x: u64, b: nat)
    requires b < 64
    ensures And(x, Shl(1, b)) == 0 <==> !Bit(x, b)
  {
    BitAnd(x, Shl(1, b), b);
    BitShl(1, b, b);
    BitOfZero(b);
    if And(x, Shl(1, b)) != 0 {
      var i := SomeBit(And(x, Shl(1, b)));
      BitAnd(x, Shl(1, b), i);
      TwoTo64();
      if i >= 64 { BitAbove(x, 64, i); }
      BitShl(1, b, i);
      if b < i { BitOneOnly(i - b); }
    }
  }

  lemma BitOneOnly(i: nat)
    requires i > 0
    ensures !Bit(1, i)
  {
    BitOfZero(i - 1);
  }

  lemma {:induction false} SomeBit(w: nat) returns (i: nat)
    requires w > 0
    ensures Bit(w, i)
  {
    if w % 2 == 1 { i := 0; } else { var j := SomeBit(w / 2); i := j + 1; }
  }

  lemma {:induction false} OrBelow(x: nat, y: nat, k: nat)
    requires x < Pow2(k) && y < Pow2(k)
    ensures Or(x, y) < Pow2(k)
  {
    if x != 0 && y != 0 { OrBelow(x / 2, y / 2, k - 1); }
  }

  lemma OrFits(x: u64, y: u64)
    ensures Or(x, y) < TWO64
  {
    TwoTo64();
    OrBelow(x, y, 64);
  }

  function Xor(x: nat, y: nat): nat
    decreases x + y
  {
    if x == 0 then y else if y == 0 then x
    else 2 * Xor(x / 2, y / 2) + (if x % 2 == y % 2 then 0 else 1)
  }

  lemma {:induction false} XorCancels(x: nat, y: nat)
    ensures Xor(Xor(x, y), y) == x
    decreases x + y
  {
    if x != 0 && y != 0 {
      XorCancels(x / 2, y / 2);
      XorHalves(x, y);
      XorHalves(Xor(x, y), y);
    } else {
      XorSelf(y);
    }
  }

  lemma {:induction false} XorSelf(y: nat)
    ensures Xor(y, y) == 0
  {
    if y != 0 { XorSelf(y / 2); }
  }

  lemma {:induction false} BitXor(x: nat, y: nat, i: nat)
    ensures Bit(Xor(x, y), i) <==> Bit(x, i) != Bit(y, i)
  {
    BitOfZero(i);
    if x != 0 && y != 0 {
      XorHalves(x, y);
      if i > 0 { BitXor(x / 2, y / 2, i - 1); }
    }
  }

  lemma XorHalves(x: nat, y: nat)
    ensures Xor(x, y) / 2 == Xor(x / 2, y / 2) && Xor(x, y) % 2 == (if x % 2 == y % 2 then 0 else 1)
  {
  }

  lemma {:induction false} XorFits(x: nat, y: nat, n: nat)
    requires x < Pow2(n) && y < Pow2(n)
    ensures Xor(x, y) < Pow2(n)
    decreases n
  {
    if n > 0 && x != 0 && y != 0 { XorFits(x / 2, y / 2, n - 1); }
  }
}
