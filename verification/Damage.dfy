/** What recovery makes of a file in which one byte of one record has been changed. */
module Damage {
  import opened Bytes
  import opened Crc32
  import opened Records
  import opened Frames
  import opened Recovery

  /** The checksum field of a frame covers every byte after it. */
  lemma FrameChecksum(r: Record)
    requires Encodable(r)
    ensures |Frame(r)| == Size(r)
    ensures Frame(r)[12..16] == PackWord(Crc(Frame(r)[16..], 0))
  {
    hide PackSigned, PackUnsigned, PackWord, Crc, PackBody, FitsSigned, Encode;
    FrameFields(r);
    var key, value := Payload(r.key), Payload(r.value);
    var body := PackBody(r.timestamp, DeclaredLength(r.key), DeclaredLength(r.value));
    CrcConcat(body, key, 0);
    CrcConcat(body + key, value, 0);
    assert Frame(r)[16..] == body + key + value;
  }

  /** Frames of the same size and offset that differ in one byte are not both frames. */
  lemma FramesDifferTwice(a: Record, b: Record, k: nat)
    requires Encodable(a) && Encodable(b) && Size(a) == Size(b) && a.offset == b.offset
    requires |Frame(a)| == |Frame(b)| == Size(a) && k < Size(a)
    requires !(8 <= k < 12)
    requires forall j :: 0 <= j < Size(a) && j != k ==> Frame(a)[j] == Frame(b)[j]
    ensures Frame(a)[k] == Frame(b)[k]
  {
    hide PackSigned, PackUnsigned, PackWord, Crc, PackBody, FitsSigned, Encode;
    var f, g := Frame(a), Frame(b);
    if k < 8 {
      FrameFields(a);
      FrameFields(b);
      assert f[..8][k] == g[..8][k];
    } else {
      FrameChecksum(a);
      FrameChecksum(b);
      var x, y := f[16..], g[16..];
      if k < 16 {
        assert x == y;
        assert f[12..16][k - 12] == g[12..16][k - 12];
      } else {
        assert f[12..16] == g[12..16];
        UnpackPackWord(Crc(x, 0));
        UnpackPackWord(Crc(y, 0));
        if f[k] != g[k] {
          CrcDetectsOneByte(x, y, k - 16, 0);
        }
      }
    }
  }

  /** A damaged frame whose size field is intact never reads back under its own offset. */
  lemma DamagedFrame(r: Record, rest: seq<byte>, k: nat, b: byte)
    requires Encodable(r) && k < Size(r) && !(8 <= k < 12)
    requires |Frame(r)| == Size(r) && b != Frame(r)[k]
    ensures var out := ReadOne((Frame(r) + rest)[k := b]);
            out == Failed(CorruptRecord) || (out.Found? && out.record.offset != r.offset)
  {
    hide Encode, Decode, UnpackUnsigned;
    var s := (Frame(r) + rest)[k := b];
    FrameSize(r);
    assert s[8..12] == Frame(r)[8..12];
    ReadOneExact(s);
    LongEnough(s[..Size(r)]);
    var out := ReadOne(s);
    if out.Found? && out.record.offset == r.offset {
      var q := out.record;
      ReadFound(s);
      FrameSize(q);
      assert Frame(q) == s[..Size(r)];
      FramesDifferTwice(r, q, k);
    }
  }

  lemma LongEnough(buf: seq<byte>)
    requires |buf| >= HEADER_SIZE && UnpackUnsigned(buf[8..12]) <= MAX_SIZE
    ensures Decode(buf).Err? ==> Decode(buf).error == CorruptRecord
  {
    hide UnpackSigned, UnpackUnsigned, UnpackWord, Checksum;
  }

  /** Every outcome of reading a frame whose size field now says something else. */
  lemma MissizedFrame(r: Record, s: seq<byte>)
    requires Encodable(r) && |s| >= Size(r)
    requires |Frame(r)| == Size(r) && s[12..Size(r)] == Frame(r)[12..]
    requires UnpackUnsigned(s[8..12]) != Size(r) - PREFIX_SIZE
    ensures var size := UnpackUnsigned(s[8..12]);
            ReadOne(s) ==
              if size > MAX_SIZE then Failed(CorruptRecord)
              else if PREFIX_SIZE + size > |s| then End
              else if size < 20 then Failed(StructError)
              else Failed(CorruptRecord)
  {
    hide Encode, Decode, UnpackUnsigned;
    var size := UnpackUnsigned(s[8..12]);
    if size <= MAX_SIZE && PREFIX_SIZE + size <= |s| {
      ReadOneExact(s);
      var buf := s[..PREFIX_SIZE + size];
      assert buf[8..12] == s[8..12];
      if size < 20 {
        TooShort(buf);
      } else {
        SliceOfSlice(s, 12, Size(r), 4, 20);
        assert buf[16..32] == s[16..32];
        assert Frame(r)[12..] == Frame(r)[12..Size(r)];
        SliceOfSlice(Frame(r), 12, Size(r), 4, 20);
        LengthsDisagree(r, buf);
      }
    }
  }

  lemma SliceOfSlice(s: seq<byte>, lo: nat, hi: nat, i: nat, j: nat)
    requires lo <= hi <= |s| && i <= j <= hi - lo
    ensures s[lo..hi][i..j] == s[lo + i..lo + j]
  {
    var a, b := s[lo..hi][i..j], s[lo + i..lo + j];
    assert forall k | 0 <= k < j - i :: a[k] == s[lo..hi][i + k] == s[lo + i + k] == b[k];
  }

  lemma TooShort(buf: seq<byte>)
    requires PREFIX_SIZE <= |buf| < HEADER_SIZE && PREFIX_SIZE + UnpackUnsigned(buf[8..12]) <= |buf|
    ensures Decode(buf) == Err(StructError)
  {
    hide UnpackSigned, UnpackUnsigned, UnpackWord, Checksum;
  }

  lemma LengthsDisagree(r: Record, buf: seq<byte>)
    requires Encodable(r) && |Frame(r)| == Size(r)
    requires |buf| >= HEADER_SIZE && buf[16..32] == Frame(r)[16..32]
    requires UnpackUnsigned(buf[8..12]) <= MAX_SIZE
    requires UnpackUnsigned(buf[8..12]) != Size(r) - PREFIX_SIZE
    ensures Decode(buf) == Err(CorruptRecord)
  {
    hide UnpackSigned, UnpackUnsigned, UnpackWord, Checksum, PackBody, PackSigned, PackUnsigned, PackWord, FitsSigned, Encode;
    FrameFields(r);
    UnpackBody(r.timestamp, DeclaredLength(r.key), DeclaredLength(r.value));
  }

  /** The size field a reader sees at the start of record i after byte k of it became b. */
  function SizeAfter(file: seq<byte>, start: nat, k: nat, b: byte): nat
    requires start + k < |file| && start + 12 <= |file|
  {
    UnpackUnsigned(file[start + k := b][start + 8..start + 12])
  }

  /** Damage that a reader cannot tell from a torn tail. */
  predicate LooksTorn(file: seq<byte>, start: nat, k: nat, b: byte)
    requires start + k < |file| && start + 12 <= |file|
  {
    && 8 <= k < 12
    && SizeAfter(file, start, k, b) <= MAX_SIZE
    && start + PREFIX_SIZE + SizeAfter(file, start, k, b) > |file|
  }

  /** The frame of record i and what follows it, in a file that holds it. */
  lemma FrameInFile(rs: seq<Record>, tail: seq<byte>, i: nat)
    requires AllEncodable(rs) && i < |rs|
    ensures var file := EncodeAll(rs) + tail;
            && |Frame(rs[i])| == Size(rs[i]) >= HEADER_SIZE
            && Start(rs, i) + Size(rs[i]) <= |file|
            && file[..Start(rs, i)] == EncodeAll(rs[..i])
            && file[Start(rs, i)..] == Frame(rs[i]) + (EncodeAll(rs[i + 1..]) + tail)
  {
    hide Frame, Encodable, EncodeAll, Total;
    var all, file, start := EncodeAll(rs), EncodeAll(rs) + tail, Start(rs, i);
    EncodeFrom(rs, i);
    RecordEnds(rs, i);
    FrameSize(rs[i]);
    EncodeHead(rs[i..]);
    assert rs[i..][1..] == rs[i + 1..];
    DropConcat(all, tail, start);
    Reassociate(Frame(rs[i]), EncodeAll(rs[i + 1..]), tail);
  }

  lemma RecordEnds(rs: seq<Record>, i: nat)
    requires i < |rs|
    ensures Start(rs, i) + Size(rs[i]) <= Total(rs)
  {
    hide Total, Size;
    StartGap(rs, i, i + 1);
    StartGap(rs, i + 1, |rs|);
    assert rs[..|rs|] == rs;
  }

  lemma DropConcat(a: seq<byte>, b: seq<byte>, n: nat)
    requires n <= |a|
    ensures (a + b)[..n] == a[..n]
    ensures (a + b)[n..] == a[n..] + b
  {
  }

  lemma Reassociate(a: seq<byte>, b: seq<byte>, c: seq<byte>)
    ensures (a + b) + c == a + (b + c)
  {
  }

  /** Reading at the damaged record: an error, a torn tail, or a record under another offset. */
  lemma ReadAtDamage(rs: seq<Record>, tail: seq<byte>, i: nat, k: nat, b: byte)
    requires AllEncodable(rs) && i < |rs| && k < Size(rs[i])
    requires Start(rs, i) + Size(rs[i]) <= |EncodeAll(rs) + tail|
    requires b != (EncodeAll(rs) + tail)[Start(rs, i) + k]
    ensures var file, start := EncodeAll(rs) + tail, Start(rs, i);
            var out := ReadOne(file[start + k := b][start..]);
            if LooksTorn(file, start, k, b) then out == End
            else out.Failed? || (out.Found? && out.record.offset != rs[i].offset)
  {
    hide Frame, Encodable, EncodeAll, Total, ReadOne, UnpackUnsigned, Size;
    var file, start, r := EncodeAll(rs) + tail, Start(rs, i), rs[i];
    FrameInFile(rs, tail, i);
    var rest := EncodeAll(rs[i + 1..]) + tail;
    var s := file[start + k := b][start..];
    assert s == (Frame(r) + rest)[k := b];
    assert s[8..12] == file[start + k := b][start + 8..start + 12];
    if 8 <= k < 12 {
      FrameSize(r);
      SizeFieldChanged(Frame(r)[8..12], s[8..12], k - 8);
      assert s[12..Size(r)] == Frame(r)[12..];
      MissizedFrame(r, s);
    } else {
      DamagedFrame(r, rest, k, b);
    }
  }

  lemma SizeFieldChanged(a: seq<byte>, b: seq<byte>, i: nat)
    requires |a| == |b| && i < |a| && a[i] != b[i]
    ensures UnpackUnsigned(a) != UnpackUnsigned(b)
  {
    hide UnpackUnsigned, PackUnsigned;
    PackUnpackUnsigned(a);
    PackUnpackUnsigned(b);
  }

  /**
   One changed byte, anywhere in any record of a file that opens. The damaged
   file opens if and only if the byte belongs to a size field that now claims
   an acceptable size running past the end of the file; then every record
   before the damaged one is kept and the rest is taken for a torn tail.
   Any other change makes recovery raise.
   */
  lemma OneByteDamage(rs: seq<Record>, tail: seq<byte>, base: int, interval: int, i: nat, k: nat, b: byte)
    requires Stored(rs, base) && Indexable(rs, base, interval)
    requires i < |rs| && k < Size(rs[i])
    requires Start(rs, i) + Size(rs[i]) <= |EncodeAll(rs) + tail|
    requires b != (EncodeAll(rs) + tail)[Start(rs, i) + k]
    ensures var file, start := EncodeAll(rs) + tail, Start(rs, i);
            var out := Recover(file[start + k := b], base, interval);
            && (out.Ok? <==> LooksTorn(file, start, k, b))
            && (out.Ok? ==> out.value.records == rs[..i] && out.value.position == start)
  {
    hide Encodable, EncodeAll, ReadOne, Frame, Size, Indexes.Extend, Indexes.IndexOf, Total, Recover, LooksTorn, Indexable;
    var file, start := EncodeAll(rs) + tail, Start(rs, i);
    var damaged := file[start + k := b];
    FrameInFile(rs, tail, i);
    ReadAtDamage(rs, tail, i, k, b);
    IndexablePrefix(rs, i, base, interval);
    RecoverAcross(rs[..i], damaged[start..], base, interval);
    assert damaged == EncodeAll(rs[..i]) + damaged[start..];
    assert rs[..i] + [] == rs[..i];
  }

  /** A record carries its checksum to the letter: outside the size field, every change is CorruptRecord. */
  lemma DamageOutsideSize(rs: seq<Record>, tail: seq<byte>, base: int, interval: int, i: nat, k: nat, b: byte)
    requires Stored(rs, base) && Indexable(rs, base, interval)
    requires i < |rs| && k < Size(rs[i]) && !(8 <= k < 12)
    requires Start(rs, i) + Size(rs[i]) <= |EncodeAll(rs) + tail|
    requires b != (EncodeAll(rs) + tail)[Start(rs, i) + k]
    ensures Recover((EncodeAll(rs) + tail)[Start(rs, i) + k := b], base, interval) == Err(CorruptRecord)
  {
    hide Encodable, EncodeAll, ReadOne, Frame, Size, Indexes.Extend, Indexes.IndexOf, Total, Recover, Indexable;
    var file, start, r := EncodeAll(rs) + tail, Start(rs, i), rs[i];
    var damaged := file[start + k := b];
    var rest := EncodeAll(rs[i + 1..]) + tail;
    FrameInFile(rs, tail, i);
    assert damaged[start..] == (Frame(r) + rest)[k := b];
    DamagedFrame(r, rest, k, b);
    IndexablePrefix(rs, i, base, interval);
    RecoverAcross(rs[..i], damaged[start..], base, interval);
    assert damaged == EncodeAll(rs[..i]) + damaged[start..];
  }

  /** One byte of a size field can take every record with it unnoticed: 20 became 21, in a file of one record. */
  lemma DamageUnnoticed(interval: int) returns (r: Record, b: byte)
    requires interval >= 1
    ensures Stored([r], 0) && |EncodeAll([r])| == 32 && b != EncodeAll([r])[11]
    ensures Recover(EncodeAll([r])[11 := b], 0, interval) == Ok(Recovered([], 0, []))
  {
    hide Frame, EncodeAll, ReadOne, UnpackUnsigned, Recover, PackUnsigned;
    r := Record(0, 0, None, None);
    Widths();
    EncodeOne(r);
    FrameSize(r);
    SizeFieldOf(r);
    var file, field := EncodeAll([r]), PackUnsigned(21, 4);
    assert file + [] == file;
    b := field[3];
    OneApart();
    assert file[11] == file[8..12][3];
    var after := file[11 := b];
    assert after[8..12] == file[8..12][3 := b] == field;
    UnpackPackUnsigned(21, 4);
    assert [r][..0] == [];
    SmallIsIndexable(r, interval);
    OneByteDamage([r], [], 0, interval, 0, 11, b);
    RecoverSound(after, 0, interval);
  }

  lemma SizeFieldOf(r: Record)
    requires Encodable(r)
    ensures |Frame(r)| == Size(r) && Frame(r)[8..12] == PackUnsigned(Size(r) - PREFIX_SIZE, 4)
  {
    hide PackUnsigned, PackSigned, PackWord, PackBody, FitsSigned, Encode, Encodable, Frame;
    FrameFields(r);
  }

  lemma OneApart()
    ensures PackUnsigned(21, 4) == PackUnsigned(20, 4)[3 := PackUnsigned(21, 4)[3]]
    ensures PackUnsigned(21, 4)[3] != PackUnsigned(20, 4)[3]
  {
    hide ToByte, OfByte;
    OfToByte(20);
    OfToByte(21);
  }

  lemma SmallIsIndexable(r: Record, interval: int)
    requires interval >= 1 && r.offset == 0
    ensures Indexable([r], 0, interval)
  {
    assert [r][..0] == [];
  }
}
