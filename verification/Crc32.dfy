/**
 zlib.crc32, the CRC of section 8 of RFC 1952, computed one bit at a time.
 The register is complemented on entry and on exit, so a running value can be
 passed from one buffer to the next.

 Facts about bit vectors are kept in lemmas of their own; the others hide the
 functions they do not need to look into.
 */
module Crc32 {
  import opened Bytes

  type word = bv32

  const POLYNOMIAL: word := 0xEDB8_8320

  function Shift(c: word): word {
    if c & 1 == 1 then (c >> 1) ^ POLYNOMIAL else c >> 1
  }

  function Shift8(c: word): word {
    Shift(Shift(Shift(Shift(Shift(Shift(Shift(Shift(c))))))))
  }

  function Mix(c: word, b: byte): word {
    c ^ (b as word)
  }

  function Complement(c: word): word {
    !c
  }

  function Step(c: word, b: byte): word {
    Shift8(Mix(c, b))
  }

  function Feed(c: word, data: seq<byte>): word {
    if data == [] then c else Step(Feed(c, data[..|data| - 1]), data[|data| - 1])
  }

  function Crc(data: seq<byte>, start: word): word {
    Complement(Feed(Complement(start), data))
  }

  /** The published check value: the CRC of the digits 1 to 9 is cbf43926. */
  lemma CheckValue()
    ensures Crc([0x31, 0x32, 0x33, 0x34, 0x35, 0x36, 0x37, 0x38, 0x39], 0) == 0xcbf4_3926
  {
    hide Step;
    var digits: seq<byte> := [0x31, 0x32, 0x33, 0x34, 0x35, 0x36, 0x37, 0x38, 0x39];
    CheckSteps();
    FeedNext(0xFFFF_FFFF, digits, 1);
    FeedNext(0xFFFF_FFFF, digits, 2);
    FeedNext(0xFFFF_FFFF, digits, 3);
    FeedNext(0xFFFF_FFFF, digits, 4);
    FeedNext(0xFFFF_FFFF, digits, 5);
    FeedNext(0xFFFF_FFFF, digits, 6);
    FeedNext(0xFFFF_FFFF, digits, 7);
    FeedNext(0xFFFF_FFFF, digits, 8);
    FeedNext(0xFFFF_FFFF, digits, 9);
    assert digits[..9] == digits;
  }

  lemma FeedNext(c: word, data: seq<byte>, i: nat)
    requires 0 < i <= |data|
    ensures Feed(c, data[..i]) == Step(Feed(c, data[..i - 1]), data[i - 1])
    ensures Feed(c, data[..0]) == c
  {
    assert data[..i][..i - 1] == data[..i - 1];
  }

  lemma CheckSteps()
    ensures Step(0xFFFF_FFFF, 0x31) == 0x7c231048
    ensures Step(0x7c231048, 0x32) == 0xb0acbb32
    ensures Step(0xb0acbb32, 0x33) == 0x77b79c2d
    ensures Step(0x77b79c2d, 0x34) == 0x641c1f5c
    ensures Step(0x641c1f5c, 0x35) == 0x340ac5e3
    ensures Step(0x340ac5e3, 0x36) == 0xf68d2c9e
    ensures Step(0xf68d2c9e, 0x37) == 0xaffc9660
    ensures Step(0xaffc9660, 0x38) == 0x651f2550
    ensures Step(0x651f2550, 0x39) == 0x340bc6d9
  {
  }

  // The reflected polynomial has its top bit set, so the bit shifted out can
  // be read back from the result: no shift loses information.
  lemma ShiftInjective(c: word, d: word)
    requires Shift(c) == Shift(d)
    ensures c == d
  {
  }

  lemma Shift8Injective(c: word, d: word)
    requires Shift8(c) == Shift8(d)
    ensures c == d
  {
    hide Shift;
    var c1, d1 := Shift(c), Shift(d);
    var c2, d2 := Shift(c1), Shift(d1);
    var c3, d3 := Shift(c2), Shift(d2);
    var c4, d4 := Shift(c3), Shift(d3);
    var c5, d5 := Shift(c4), Shift(d4);
    var c6, d6 := Shift(c5), Shift(d5);
    var c7, d7 := Shift(c6), Shift(d6);
    ShiftInjective(c7, d7);
    ShiftInjective(c6, d6);
    ShiftInjective(c5, d5);
    ShiftInjective(c4, d4);
    ShiftInjective(c3, d3);
    ShiftInjective(c2, d2);
    ShiftInjective(c1, d1);
    ShiftInjective(c, d);
  }

  lemma MixInjective(c: word, d: word, b: byte)
    requires Mix(c, b) == Mix(d, b)
    ensures c == d
  {
  }

  lemma MixInjectiveInByte(c: word, a: byte, b: byte)
    requires Mix(c, a) == Mix(c, b)
    ensures a == b
  {
  }

  lemma ComplementInjective(c: word, d: word)
    requires Complement(c) == Complement(d)
    ensures c == d
  {
  }

  lemma ComplementTwice(c: word)
    ensures Complement(Complement(c)) == c
  {
  }

  /** One step keeps two registers apart, and keeps two bytes apart. */
  lemma StepInjective(c: word, d: word, a: byte, b: byte)
    requires Step(c, a) == Step(d, b)
    ensures a == b <==> c == d
  {
    hide Shift8, Mix;
    Shift8Injective(Mix(c, a), Mix(d, b));
    if a == b {
      MixInjective(c, d, a);
    }
    if c == d {
      MixInjectiveInByte(c, a, b);
    }
  }

  /** Feeding two buffers one after the other is feeding their concatenation. */
  lemma {:induction false} FeedConcat(c: word, a: seq<byte>, b: seq<byte>)
    ensures Feed(c, a + b) == Feed(Feed(c, a), b)
  {
    hide Step;
    if b == [] {
      assert a + b == a;
    } else {
      assert (a + b)[..|a + b| - 1] == a + b[..|b| - 1];
      FeedConcat(c, a, b[..|b| - 1]);
    }
  }

  /** The checksum of a concatenation can be computed piece by piece. */
  lemma CrcConcat(a: seq<byte>, b: seq<byte>, start: word)
    ensures Crc(b, Crc(a, start)) == Crc(a + b, start)
  {
    hide Feed, Complement;
    FeedConcat(Complement(start), a, b);
    ComplementTwice(Feed(Complement(start), a));
  }

  lemma {:induction false} FeedDetects(c: word, a: seq<byte>, b: seq<byte>, i: nat)
    requires |a| == |b| && i < |a|
    requires a[i] != b[i]
    requires forall j :: 0 <= j < |a| && j != i ==> a[j] == b[j]
    ensures Feed(c, a) != Feed(c, b)
  {
    hide Step;
    var n := |a| - 1;
    if i == n {
      assert a[..n] == b[..n];
    } else {
      FeedDetects(c, a[..n], b[..n], i);
    }
    if Feed(c, a) == Feed(c, b) {
      StepInjective(Feed(c, a[..n]), Feed(c, b[..n]), a[n], b[n]);
    }
  }

  /** Changing any one byte of any buffer changes its checksum. */
  lemma CrcDetectsOneByte(a: seq<byte>, b: seq<byte>, i: nat, start: word)
    requires |a| == |b| && i < |a|
    requires a[i] != b[i]
    requires forall j :: 0 <= j < |a| && j != i ==> a[j] == b[j]
    ensures Crc(a, start) != Crc(b, start)
  {
    hide Feed, Complement;
    var c := Complement(start);
    FeedDetects(c, a, b, i);
    if Crc(a, start) == Crc(b, start) {
      ComplementInjective(Feed(c, a), Feed(c, b));
    }
  }

  // The checksum field: four bytes, most significant first.

  function Byte3(c: word): byte { (c >> 24) as byte }
  function Byte2(c: word): byte { ((c >> 16) & 0xFF) as byte }
  function Byte1(c: word): byte { ((c >> 8) & 0xFF) as byte }
  function Byte0(c: word): byte { (c & 0xFF) as byte }

  function Join(a: byte, b: byte, c: byte, d: byte): word {
    ((a as word) << 24) | ((b as word) << 16) | ((c as word) << 8) | (d as word)
  }

  function PackWord(c: word): (s: seq<byte>)
    ensures |s| == 4
  {
    [Byte3(c), Byte2(c), Byte1(c), Byte0(c)]
  }

  function UnpackWord(s: seq<byte>): word
    requires |s| == 4
  {
    Join(s[0], s[1], s[2], s[3])
  }

  lemma SplitJoin(a: byte, b: byte, c: byte, d: byte)
    ensures Byte3(Join(a, b, c, d)) == a
    ensures Byte2(Join(a, b, c, d)) == b
    ensures Byte1(Join(a, b, c, d)) == c
    ensures Byte0(Join(a, b, c, d)) == d
  {
  }

  lemma JoinSplit(c: word)
    ensures Join(Byte3(c), Byte2(c), Byte1(c), Byte0(c)) == c
  {
  }

  /** The most significant byte comes first. */
  lemma WordBytes()
    ensures PackWord(0x0102_0304) == [1, 2, 3, 4] && PackWord(0xff00_0000) == [255, 0, 0, 0]
  {
  }

  lemma UnpackPackWord(c: word)
    ensures UnpackWord(PackWord(c)) == c
  {
    hide Byte3, Byte2, Byte1, Byte0, Join;
    JoinSplit(c);
  }

  lemma PackUnpackWord(s: seq<byte>)
    requires |s| == 4
    ensures PackWord(UnpackWord(s)) == s
  {
    hide Byte3, Byte2, Byte1, Byte0, Join;
    SplitJoin(s[0], s[1], s[2], s[3]);
  }
}
