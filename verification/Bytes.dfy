/** Big-endian integer fields, as the struct module packs and unpacks them. */
module Bytes {
  type byte = bv8

  datatype Option<+T> = None | Some(value: T)

  /** The exceptions the storage engine raises. */
  datatype Error =
    | StructError       // struct.error: a field does not fit, or too few bytes to unpack
    | ValueError
    | CorruptRecord
    | CorruptLog
    | OffsetOutOfRange
    | PartitionNotLocal
    | RuntimeError      // a file that does not end where it should

  datatype Result<+T> = Ok(value: T) | Err(error: Error)

  function Pow256(w: nat): (p: nat)
    ensures p > 0
  {
    if w == 0 then 1 else 256 * Pow256(w - 1)
  }

  // A byte and a number below 256 are connected through their eight bits, so
  // that no lemma has to mix bit vectors with arithmetic.

  function Pow2(w: nat): (p: nat)
    ensures p > 0
  {
    if w == 0 then 1 else 2 * Pow2(w - 1)
  }

  function BitsOfNat(n: nat, w: nat): (d: seq<bool>)
    ensures |d| == w
  {
    if w == 0 then [] else BitsOfNat(n / 2, w - 1) + [n % 2 == 1]
  }

  function NatOfBits(d: seq<bool>): (n: nat)
    ensures n < Pow2(|d|)
  {
    if d == [] then 0 else 2 * NatOfBits(d[..|d| - 1]) + if d[|d| - 1] then 1 else 0
  }

  lemma {:induction false} NatOfBitsOfNat(n: nat, w: nat)
    requires n < Pow2(w)
    ensures NatOfBits(BitsOfNat(n, w)) == n
  {
    if w == 0 {
    } else {
      NatOfBitsOfNat(n / 2, w - 1);
      assert BitsOfNat(n, w)[..w - 1] == BitsOfNat(n / 2, w - 1);
    }
  }

  lemma {:induction false} BitsOfNatOfBits(d: seq<bool>)
    ensures BitsOfNat(NatOfBits(d), |d|) == d
  {
    if d == [] {
    } else {
      var front := d[..|d| - 1];
      BitsOfNatOfBits(front);
      assert NatOfBits(d) / 2 == NatOfBits(front);
      assert d == front + [d[|d| - 1]];
    }
  }

  function Mask(d: bool, m: byte): byte {
    if d then m else 0
  }

  function BitsOfByte(b: byte): (d: seq<bool>)
    ensures |d| == 8
  {
    [b & 128 != 0, b & 64 != 0, b & 32 != 0, b & 16 != 0, b & 8 != 0, b & 4 != 0, b & 2 != 0, b & 1 != 0]
  }

  function Assemble(d7: bool, d6: bool, d5: bool, d4: bool, d3: bool, d2: bool, d1: bool, d0: bool): byte {
    Mask(d7, 128) | Mask(d6, 64) | Mask(d5, 32) | Mask(d4, 16) | Mask(d3, 8) | Mask(d2, 4) | Mask(d1, 2) | Mask(d0, 1)
  }

  function ByteOfBits(d: seq<bool>): byte
    requires |d| == 8
  {
    Assemble(d[0], d[1], d[2], d[3], d[4], d[5], d[6], d[7])
  }

  lemma AssembledBits(d7: bool, d6: bool, d5: bool, d4: bool, d3: bool, d2: bool, d1: bool, d0: bool)
    ensures BitsOfByte(Assemble(d7, d6, d5, d4, d3, d2, d1, d0)) == [d7, d6, d5, d4, d3, d2, d1, d0]
  {
  }

  lemma BitsOfByteOfBits(d: seq<bool>)
    requires |d| == 8
    ensures BitsOfByte(ByteOfBits(d)) == d
  {
    hide BitsOfByte, Assemble, Mask;
    EightBits(d);
    AssembledBits(d[0], d[1], d[2], d[3], d[4], d[5], d[6], d[7]);
  }

  lemma EightBits(d: seq<bool>)
    requires |d| == 8
    ensures [d[0], d[1], d[2], d[3], d[4], d[5], d[6], d[7]] == d
  {
  }

  lemma ByteOfBitsOfByte(b: byte)
    ensures ByteOfBits(BitsOfByte(b)) == b
  {
  }

  function ToByte(n: nat): byte
    requires n < 256
  {
    ByteOfBits(BitsOfNat(n, 8))
  }

  lemma Pow2OfEight()
    ensures Pow2(8) == 256
  {
    assert Pow2(4) == 16;
  }

  function OfByte(b: byte): (n: nat)
    ensures n < 256
  {
    Pow2OfEight();
    NatOfBits(BitsOfByte(b))
  }

  lemma OfToByte(n: nat)
    requires n < 256
    ensures OfByte(ToByte(n)) == n
  {
    hide BitsOfByte, ByteOfBits, BitsOfNat, NatOfBits;
    Pow2OfEight();
    BitsOfByteOfBits(BitsOfNat(n, 8));
    NatOfBitsOfNat(n, 8);
  }

  function One(d: bool): nat {
    if d then 1 else 0
  }

  function Weight(d: seq<bool>): nat
    requires |d| == 8
  {
    128 * One(d[0]) + 64 * One(d[1]) + 32 * One(d[2]) + 16 * One(d[3])
    + 8 * One(d[4]) + 4 * One(d[5]) + 2 * One(d[6]) + One(d[7])
  }

  lemma NatOfPrefix(d: seq<bool>, n: nat)
    requires 0 < n <= |d|
    ensures NatOfBits(d[..n]) == 2 * NatOfBits(d[..n - 1]) + One(d[n - 1])
    ensures NatOfBits(d[..0]) == 0
  {
    assert d[..n][..n - 1] == d[..n - 1];
  }

  lemma NatOfEight(d: seq<bool>)
    requires |d| == 8
    ensures NatOfBits(d) == Weight(d)
  {
    hide NatOfBits, One, Pow2;
    NatOfPrefix(d, 1);
    NatOfFour(d, 0);
    NatOfFour(d, 4);
    assert d[..8] == d;
  }

  lemma NatOfFour(d: seq<bool>, n: nat)
    requires n + 4 <= |d|
    ensures NatOfBits(d[..n + 4])
         == 16 * NatOfBits(d[..n]) + 8 * One(d[n]) + 4 * One(d[n + 1]) + 2 * One(d[n + 2]) + One(d[n + 3])
  {
    hide NatOfBits, One, Pow2;
    NatOfPrefix(d, n + 1);
    NatOfPrefix(d, n + 2);
    NatOfPrefix(d, n + 3);
    NatOfPrefix(d, n + 4);
  }

  lemma OfByteWeighs(b: byte)
    ensures OfByte(b) == Weight(BitsOfByte(b))
  {
    hide NatOfBits, Weight, BitsOfByte;
    NatOfEight(BitsOfByte(b));
  }

  lemma WeightCounts(b: byte)
    ensures Weight(BitsOfByte(0)) == 0
    ensures b != 255 ==> Weight(BitsOfByte(b + 1)) == Weight(BitsOfByte(b)) + 1
  {
  }

  /** The number of a byte: zero for zero, and one more for the next byte. */
  lemma OfByteCounts(b: byte)
    ensures OfByte(0) == 0
    ensures b != 255 ==> OfByte(b + 1) == OfByte(b) + 1
  {
    hide OfByte, Weight, BitsOfByte;
    WeightCounts(b);
    OfByteWeighs(0);
    OfByteWeighs(b);
    if b != 255 {
      OfByteWeighs(b + 1);
    }
  }

  /** So it is the byte's value as an unsigned integer. */
  lemma {:induction false} OfByteIs(b: byte)
    ensures OfByte(b) == b as int
    decreases b as int
  {
    hide OfByte;
    OfByteCounts(b);
    if b != 0 {
      OfByteCounts(b - 1);
      OfByteIs(b - 1);
      NextByte(b - 1);
    }
  }

  lemma NextByte(b: byte)
    requires b != 255
    ensures (b + 1) as int == b as int + 1
  {
  }

  lemma ToOfByte(b: byte)
    ensures ToByte(OfByte(b)) == b
  {
    hide BitsOfByte, ByteOfBits, BitsOfNat, NatOfBits;
    BitsOfNatOfBits(BitsOfByte(b));
    ByteOfBitsOfByte(b);
  }

  /** The k-th digit of n in base 256, counted from the lowest. */
  function Digit(n: nat, k: nat): (d: nat)
    ensures d < 256
  {
    if k == 0 then n % 256 else Digit(n / 256, k - 1)
  }

  /** Big-endian, in w bytes. */
  function PackUnsigned(n: nat, w: nat): (s: seq<byte>)
    ensures |s| == w
  {
    seq(w, i requires 0 <= i < w => ToByte(Digit(n, w - 1 - i)))
  }

  lemma PackStep(n: nat, w: nat)
    requires w > 0
    ensures PackUnsigned(n, w) == PackUnsigned(n / 256, w - 1) + [ToByte(n % 256)]
  {
    hide ToByte;
    var s, front := PackUnsigned(n, w), PackUnsigned(n / 256, w - 1);
    forall i | 0 <= i < w
      ensures s[i] == (front + [ToByte(n % 256)])[i]
    {
      assert Digit(n, w - 1 - i) == if i == w - 1 then n % 256 else Digit(n / 256, w - 2 - i);
    }
  }

  function UnpackUnsigned(s: seq<byte>): nat {
    if s == [] then 0 else 256 * UnpackUnsigned(s[..|s| - 1]) + OfByte(s[|s| - 1])
  }

  /** How many values w bytes take; written out for the widths of the format. */
  function Range(w: nat): nat {
    if w == 4 then 0x1_0000_0000
    else if w == 8 then 0x1_0000_0000_0000_0000
    else Pow256(w)
  }

  lemma RangeIsPow256(w: nat)
    ensures Range(w) == Pow256(w)
  {
    Widths();
  }

  predicate FitsSigned(n: int, w: nat) {
    if w == 4 then -0x8000_0000 <= n < 0x8000_0000
    else if w == 8 then -0x8000_0000_0000_0000 <= n < 0x8000_0000_0000_0000
    else 0 <= 2 * n + Range(w) < 2 * Range(w)
  }

  function PackSigned(n: int, w: nat): (s: seq<byte>)
    requires FitsSigned(n, w)
    ensures |s| == w
  {
    PackUnsigned(if n < 0 then n + Range(w) else n, w)
  }

  function UnpackSigned(s: seq<byte>): int {
    var u := UnpackUnsigned(s);
    if 2 * u >= Range(|s|) then u - Range(|s|) else u
  }

  lemma {:induction false} UnpackPackUnsigned(n: nat, w: nat)
    requires n < Pow256(w)
    ensures UnpackUnsigned(PackUnsigned(n, w)) == n
  {
    hide ToByte, OfByte;
    if w == 0 {
    } else {
      UnpackPackUnsigned(n / 256, w - 1);
      OfToByte(n % 256);
      PackStep(n, w);
      assert PackUnsigned(n, w)[..w - 1] == PackUnsigned(n / 256, w - 1);
    }
  }

  lemma {:induction false} UnpackedFits(s: seq<byte>)
    ensures UnpackUnsigned(s) < Pow256(|s|)
  {
    hide OfByte;
    if s == [] {
    } else {
      UnpackedFits(s[..|s| - 1]);
    }
  }

  lemma DivMod(high: nat, low: nat)
    requires low < 256
    ensures (256 * high + low) / 256 == high
    ensures (256 * high + low) % 256 == low
  {
  }

  lemma {:induction false} PackUnpackUnsigned(s: seq<byte>)
    ensures PackUnsigned(UnpackUnsigned(s), |s|) == s
  {
    hide ToByte, OfByte;
    if s == [] {
    } else {
      var front, last := s[..|s| - 1], s[|s| - 1];
      PackUnpackUnsigned(front);
      ToOfByte(last);
      DivMod(UnpackUnsigned(front), OfByte(last));
      PackStep(UnpackUnsigned(s), |s|);
    }
  }

  lemma UnpackPackSigned(n: int, w: nat)
    requires FitsSigned(n, w)
    ensures UnpackSigned(PackSigned(n, w)) == n
  {
    hide UnpackUnsigned, PackUnsigned, Pow256;
    RangeIsPow256(w);
    UnpackPackUnsigned(if n < 0 then n + Range(w) else n, w);
  }

  lemma PackUnpackSigned(s: seq<byte>)
    requires Range(|s|) % 2 == 0
    ensures FitsSigned(UnpackSigned(s), |s|)
    ensures PackSigned(UnpackSigned(s), |s|) == s
  {
    hide UnpackUnsigned, PackUnsigned, Pow256;
    RangeIsPow256(|s|);
    UnpackedFits(s);
    PackUnpackUnsigned(s);
  }

  lemma Widths()
    ensures Pow256(4) == 0x1_0000_0000
    ensures Pow256(8) == 0x1_0000_0000_0000_0000
  {
    assert Pow256(1) == 256;
    assert Pow256(2) == 0x1_0000;
    assert Pow256(3) == 0x100_0000;
    assert Pow256(4) == 0x1_0000_0000;
    assert Pow256(5) == 0x100_0000_0000;
    assert Pow256(6) == 0x1_0000_0000_0000;
    assert Pow256(7) == 0x100_0000_0000_0000;
  }
}
