/** Byte strings: integers in either byte order, and writing into a buffer at an offset. */
module Buffers {
  import opened Words

  type Bytes = seq<u8>

  function Little(n: nat, width: nat): (b: Bytes)
    ensures |b| == width
  {
    if width == 0 then [] else [n % 256] + Little(n / 256, width - 1)
  }

  function FromLittle(b: Bytes): nat {
    if b == [] then 0 else b[0] + 256 * FromLittle(b[1..])
  }

  lemma {:induction false} LittleRoundTrip(n: nat, width: nat)
    requires n < Pow256(width)
    ensures FromLittle(Little(n, width)) == n
  {
    if width > 0 { LittleRoundTrip(n / 256, width - 1); }
  }

  /** Least significant byte first. */
  lemma LittleFour(b: Bytes, n: nat)
    requires |b| == 4 && b == Little(n, 4) && n < TWO32
    ensures var b0: int, b1: int, b2: int, b3: int := b[0], b[1], b[2], b[3];
            n == b0 + 256 * (b1 + 256 * (b2 + 256 * b3))
  {
    Widths();
    LittleRoundTrip(n, 4);
    LastFour(b);
  }

  lemma LastFour(b: Bytes)
    requires |b| == 4
    ensures var b0: int, b1: int, b2: int, b3: int := b[0], b[1], b[2], b[3];
            FromLittle(b) == b0 + 256 * (b1 + 256 * (b2 + 256 * b3))
  {
    assert b[1..][1..] == b[2..] && b[2..][1..] == b[3..] && b[3..][1..] == [];
    assert FromLittle(b[3..]) == b[3];
    assert FromLittle(b[2..]) == b[2] + 256 * FromLittle(b[3..]);
    assert FromLittle(b[1..]) == b[1] + 256 * FromLittle(b[2..]);
  }

  lemma LittleEight(b: Bytes, n: nat)
    requires |b| == 8 && b == Little(n, 8) && n < TWO64
    ensures var b0: int, b1: int, b2: int, b3: int := b[0], b[1], b[2], b[3];
            var b4: int, b5: int, b6: int, b7: int := b[4], b[5], b[6], b[7];
            n == b0 + 256 * (b1 + 256 * (b2 + 256 * (b3 + 256 * (b4 + 256 * (b5 + 256 * (b6 + 256 * b7))))))
  {
    Widths();
    LittleRoundTrip(n, 8);
    assert b[1..][1..] == b[2..] && b[2..][1..] == b[3..] && b[3..][1..] == b[4..];
    LastFour(b[4..]);
    assert FromLittle(b[3..]) == b[3] + 256 * FromLittle(b[4..]);
    assert FromLittle(b[2..]) == b[2] + 256 * FromLittle(b[3..]);
    assert FromLittle(b[1..]) == b[1] + 256 * FromLittle(b[2..]);
  }

  lemma {:induction false} LittleOnto(b: Bytes)
    ensures FromLittle(b) < Pow256(|b|) && Little(FromLittle(b), |b|) == b
  {
    if b != [] {
      LittleOnto(b[1..]);
      var rest := FromLittle(b[1..]);
      assert FromLittle(b) % 256 == b[0] && FromLittle(b) / 256 == rest;
    }
  }

  function Pow256(n: nat): (p: nat)
    ensures p > 0
  {
    if n == 0 then 1 else 256 * Pow256(n - 1)
  }

  lemma Widths()
    ensures Pow256(4) == TWO32 && Pow256(8) == TWO64
  {
    assert Pow256(2) == 256 * 256;
    assert Pow256(4) == 256 * (256 * Pow256(2));
    assert Pow256(6) == 256 * (256 * Pow256(4));
  }

  /** The lowest bytes of n, most significant first. */
  function Big(n: nat, width: nat): (b: Bytes)
    ensures |b| == width
  {
    if width == 0 then [] else Big(n / 256, width - 1) + [n % 256]
  }

  function FromBig(b: Bytes): nat {
    if b == [] then 0 else 256 * FromBig(b[..|b| - 1]) + b[|b| - 1]
  }

  lemma {:induction false} BigRoundTrip(n: nat, width: nat)
    requires n < Pow256(width)
    ensures FromBig(Big(n, width)) == n
  {
    if width > 0 { BigRoundTrip(n / 256, width - 1); }
  }

  lemma {:induction false} BigOnto(b: Bytes)
    ensures FromBig(b) < Pow256(|b|) && Big(FromBig(b), |b|) == b
  {
    if b != [] {
      BigOnto(b[..|b| - 1]);
      assert b == b[..|b| - 1] + [b[|b| - 1]];
    }
  }

  /** The 16-bit big-endian integer at an offset. */
  function Word(b: Bytes, at: nat): u16
    requires at + 2 <= |b|
  {
    BigOnto(b[at..at + 2]);
    assert Pow256(2) == 0x1_0000;
    FromBig(b[at..at + 2])
  }

  /** Network byte order. */
  lemma WordValue(b: Bytes, at: nat)
    requires at + 2 <= |b|
    ensures var high: int, low: int := b[at], b[at + 1]; Word(b, at) == 256 * high + low
  {
    var two := b[at..at + 2];
    assert two[..1][..0] == [];
    assert FromBig(two[..1]) == two[0];
    assert FromBig(two) == 256 * FromBig(two[..1]) + two[1];
  }

  lemma BigTwo(n: u16)
    ensures Big(n, 2) == [n / 256, n % 256]
  {
    assert Big(n / 256, 1) == [n / 256];
  }

  lemma WordRoundTrip(b: Bytes, at: nat, n: u16)
    requires at + 2 <= |b| && b[at..at + 2] == Big(n, 2)
    ensures Word(b, at) == n
  {
    assert Pow256(2) == 0x1_0000;
    BigRoundTrip(n, 2);
  }

  lemma NextLittle(done: Bytes, n: nat, width: nat)
    requires width > 0
    ensures done + Little(n, width) == done + [n % 256] + Little(n / 256, width - 1)
  {
  }

  method PutLittle(b: array<u8>, at: nat, n: nat, width: nat)
    requires at + width <= b.Length
    modifies b
    ensures b[..] == old(b[..at]) + Little(n, width) + old(b[at + width..])
  {
    var rest := n;
    ghost var done: Bytes := [];
    for i := 0 to width
      invariant |done| == i && done + Little(rest, width - i) == Little(n, width)
      invariant b[..] == old(b[..at]) + done + old(b[at + i..])
    {
      NextLittle(done, rest, width - i);
      assert old(b[at + i..]) == [old(b[at + i])] + old(b[at + i + 1..]);
      b[at + i] := rest % 256;
      done := done + [rest % 256];
      rest := rest / 256;
    }
  }

  /** copy(b[at:], src) */
  method CopyAt(b: array<u8>, at: nat, src: Bytes)
    requires at + |src| <= b.Length
    modifies b
    ensures b[..] == old(b[..at]) + src + old(b[at + |src|..])
  {
    forall i | 0 <= i < |src| { b[at + i] := src[i]; }
  }

  method PutBig(b: array<u8>, at: nat, n: nat, width: nat)
    requires at + width <= b.Length
    modifies b
    ensures b[..] == old(b[..at]) + Big(n, width) + old(b[at + width..])
  {
    CopyAt(b, at, Big(n, width));
  }
}
