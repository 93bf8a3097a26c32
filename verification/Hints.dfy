/**
 What a hint that lies can do. A read seeks to the position an index entry
 gives and believes it if a record with the promised offset is found there.
 Every open rebuilds the index, and no entry so built can mislead; the entries
 here are arbitrary, as in an index damaged in memory after it was opened.
 */
module Hints {
  import opened Bytes
  import opened Bisect
  import opened Crc32
  import opened Records
  import opened Frames
  import opened Indexes
  import opened Damage
  import opened Reading

  /** Records at or after an offset. */
  function From(rs: seq<Record>, offset: int): seq<Record> {
    if rs == [] then []
    else (if rs[0].offset >= offset then [rs[0]] else []) + From(rs[1..], offset)
  }

  /** These bytes are the frames of xs and a torn tail. */
  predicate Parses(s: seq<byte>, xs: seq<Record>, torn: seq<byte>) {
    AllEncodable(xs) && s == EncodeAll(xs) + torn && ReadOne(torn) == End
  }

  /** These bytes are frames and a torn tail, and `wanted` are their records from the offset on. */
  ghost predicate Holds(s: seq<byte>, offset: int, wanted: seq<Record>) {
    exists xs, torn :: Parses(s, xs, torn) && From(xs, offset) == wanted
  }

  lemma ReadOneFails(s: seq<byte>)
    requires ReadOne(s).Failed?
    ensures ReadOne(s).error == StructError || ReadOne(s).error == CorruptRecord
  {
    hide UnpackUnsigned, UnpackSigned, UnpackWord, Checksum;
  }

  /** Reading to the end of frames and a torn tail. */
  lemma {:induction false} DrainParsed(xs: seq<Record>, torn: seq<byte>, offset: int)
    requires AllEncodable(xs) && ReadOne(torn) == End
    ensures Drain(EncodeAll(xs) + torn, offset) == Stream(From(xs, offset), None)
    decreases xs
  {
    hide EncodeAll, Encodable, Frame, Size, ReadOne;
    ParseHead(xs, torn);
    if xs == [] {
    } else {
      DrainParsed(xs[1..], torn, offset);
    }
  }

  /** A read that ends without an error has read frames and a torn tail. */
  lemma {:induction false} DrainedParses(s: seq<byte>, offset: int) returns (xs: seq<Record>, torn: seq<byte>)
    requires Drain(s, offset).error == None
    ensures Parses(s, xs, torn) && Drain(s, offset).records == From(xs, offset)
    decreases |s|
  {
    hide ReadOne, EncodeAll, Encodable, Frame, Size;
    match ReadOne(s)
    case End =>
      EncodeNone();
      xs, torn := [], s;
      assert [] + s == s;
    case Found(r, n) =>
      var more, t := DrainedParses(s[n..], offset);
      ReadFound(s);
      EncodeHead([r] + more);
      assert ([r] + more)[1..] == more;
      xs, torn := [r] + more, t;
      assert s == s[..n] + s[n..];
      assert Frame(r) + (EncodeAll(more) + t) == EncodeAll(xs) + t;
  }

  lemma DrainExactly(s: seq<byte>, offset: int, wanted: seq<Record>)
    ensures Drain(s, offset) == Stream(wanted, None) <==> Holds(s, offset, wanted)
  {
    hide Drain, ReadOne, EncodeAll, Encodable, From;
    if Drain(s, offset) == Stream(wanted, None) {
      var xs, torn := DrainedParses(s, offset);
    }
    if Holds(s, offset, wanted) {
      var xs, torn :| Parses(s, xs, torn) && From(xs, offset) == wanted;
      DrainParsed(xs, torn, offset);
    }
  }

  ghost predicate AtRecord(rs: seq<Record>, position: nat) {
    exists i :: 0 <= i < |rs| && position == Start(rs, i)
  }

  /**
   Exactly when a hint is harmless, for any hint no later than the offset
   sought. The bytes at its position must not claim a size below the fixed
   fields; and if they hold a record with the promised offset, so that the hint
   is believed, then either a stored record starts there or the bytes from there
   on happen to hold the same records from the offset on.
   */
  lemma HintExactly(rs: seq<Record>, base: int, tail: seq<byte>, hint: (int, nat), offset: int)
    requires Stored(rs, base) && ReadOne(tail) == End
    requires base <= offset && hint.0 <= offset
    ensures var file := EncodeAll(rs) + tail; var there := SeekTo(file, hint.1);
            ReadIndexed(file, hint, offset) == Drain(file, offset) <==>
              && ReadOne(there) != Failed(StructError)
              && (Verified(file, hint) ==> AtRecord(rs, hint.1) || Holds(there, offset, Suffix(rs, offset - base)))
  {
    hide EncodeAll, Encodable, ReadOne, Drain, Total, Holds;
    var file := EncodeAll(rs) + tail;
    var there := SeekTo(file, hint.1);
    DrainStored(rs, base, tail, offset);
    DrainExactly(there, offset, Suffix(rs, offset - base));
    if ReadOne(there).Failed? {
      ReadOneFails(there);
    }
    if AtRecord(rs, hint.1) {
      var i :| 0 <= i < |rs| && hint.1 == Start(rs, i);
      HintAtRecord(rs, base, tail, i, hint.0, offset);
    }
  }

  lemma LookupNoLater(es: seq<Entry>, base: int, offset: int)
    requires base <= offset
    ensures Lookup(es, base, offset).0 <= offset
  {
    hide BisectRight;
    Boundary(Relatives(es), offset - base);
  }

  /** The same for the hint that any entries at all, sorted or not, give for an offset. */
  lemma EntriesExactly(rs: seq<Record>, base: int, tail: seq<byte>, es: seq<Entry>, offset: int)
    requires Stored(rs, base) && ReadOne(tail) == End && base <= offset
    ensures var file, hint := EncodeAll(rs) + tail, Lookup(es, base, offset);
            var there := SeekTo(file, hint.1);
            ReadIndexed(file, hint, offset) == Drain(file, offset) <==>
              && ReadOne(there) != Failed(StructError)
              && (Verified(file, hint) ==> AtRecord(rs, hint.1) || Holds(there, offset, Suffix(rs, offset - base)))
  {
    hide EncodeAll, Encodable, ReadOne, Drain, Total, Holds, Lookup, AtRecord;
    LookupNoLater(es, base, offset);
    HintExactly(rs, base, tail, Lookup(es, base, offset), offset);
  }

  /** Where values hold no believable record, only struct.error is left: the read differs exactly when it raises that. */
  lemma OnlyStructErrorMisleads(rs: seq<Record>, base: int, tail: seq<byte>, es: seq<Entry>, offset: int)
    requires Stored(rs, base) && ReadOne(tail) == End && base <= offset
    requires var hint := Lookup(es, base, offset); Verified(EncodeAll(rs) + tail, hint) ==> AtRecord(rs, hint.1)
    ensures var file, hint := EncodeAll(rs) + tail, Lookup(es, base, offset);
            ReadIndexed(file, hint, offset) == Drain(file, offset) <==> ReadOne(SeekTo(file, hint.1)) != Failed(StructError)
  {
    hide EncodeAll, Encodable, ReadOne, Drain, Total, Holds, Lookup, AtRecord, Verified, ReadIndexed;
    EntriesExactly(rs, base, tail, es, offset);
  }

  function Zeros(n: nat): (s: seq<byte>)
    ensures |s| == n
  {
    seq(n, _ => 0)
  }

  /**
   The limit of "a hint, never an authority": a hint at bytes that claim a size
   below the fixed fields raises struct.error, which is not swallowed. Here the
   entry points into the middle of a stored record; the plain scan raises nothing.
   */
  lemma MisleadingHintRaises()
    ensures var r := Record(0, 0, None, Some(Zeros(12)));
            && Stored([r], 0)
            && ReadIndexed(EncodeAll([r]), Lookup([Entry(0, 32)], 0, 0), 0) == Stream([], Some(StructError))
            && Drain(EncodeAll([r]), 0) == Stream([r], None)
  {
    hide Frame, EncodeAll, ReadOne, UnpackUnsigned, Drain, Zeros, Lookup;
    var r := Record(0, 0, None, Some(Zeros(12)));
    EncodeOne(r);
    ZerosInside(r);
    LookupOnly();
    NothingEnds();
    DrainStored([r], 0, [], 0);
    assert EncodeAll([r]) + [] == EncodeAll([r]);
  }

  lemma ZerosInside(r: Record)
    requires Encodable(r) && r.key == None && r.value == Some(Zeros(12))
    ensures |Frame(r)| == 44 && Frame(r)[32..] == Zeros(12)
    ensures ReadOne(Frame(r)[32..]) == Failed(StructError)
  {
    hide Frame, Encodable, ReadOne, UnpackUnsigned, PackUnsigned, PackSigned, PackWord, Checksum, PackBody, FitsSigned, Zeros;
    FrameFields(r);
    ReadZeros();
  }

  lemma ReadZeros()
    ensures ReadOne(Zeros(12)) == Failed(StructError)
  {
    hide UnpackUnsigned, Decode;
    var s := Zeros(12);
    assert s[8..12] == Zeros(4);
    FourZeros();
    ReadOneExact(s);
    assert s[..12] == s;
    TwelveZeros(s);
  }

  lemma FourZeros()
    ensures UnpackUnsigned(Zeros(4)) == 0
  {
    hide PackUnsigned, UnpackUnsigned;
    PackZero(4);
    Widths();
    UnpackPackUnsigned(0, 4);
  }

  lemma {:induction false} PackZero(w: nat)
    ensures PackUnsigned(0, w) == Zeros(w)
  {
    if w == 0 {
    } else {
      PackZero(w - 1);
      PackStep(0, w);
      ZeroByte();
      assert Zeros(w) == Zeros(w - 1) + [0];
    }
  }

  lemma ZeroByte()
    ensures ToByte(0) == 0
  {
    assert BitsOfNat(0, 4) == [false, false, false, false];
    assert BitsOfNat(0, 8) == [false, false, false, false, false, false, false, false];
  }

  lemma TwelveZeros(s: seq<byte>)
    requires |s| == 12 && UnpackUnsigned(s[8..12]) == 0
    ensures Decode(s) == Err(StructError)
  {
    hide UnpackUnsigned, UnpackSigned;
  }

  lemma LookupOnly()
    ensures Lookup([Entry(0, 32)], 0, 0) == (0, 32) && Lookup([Entry(0, 32)], 0, 1) == (0, 32)
  {
    hide BisectRight;
    var es := [Entry(0, 32)];
    Boundary(Relatives(es), 0);
    Boundary(Relatives(es), 1);
    assert Relatives(es)[0] == 0;
    assert BisectRight(Relatives(es), 0 - 0) == 1 && BisectRight(Relatives(es), 1 - 0) == 1;
  }

  /** A record with no key whose value is the frame of another record. */
  function Carrier(offset: int, q: Record): Record
    requires Encodable(q)
  {
    Record(offset, 0, None, Some(Frame(q)))
  }

  lemma CarrierFrame(offset: int, q: Record)
    requires Encodable(q) && Encodable(Carrier(offset, q))
    ensures |Frame(Carrier(offset, q))| == Size(Carrier(offset, q))
    ensures Frame(Carrier(offset, q))[32..] == Frame(q)
  {
    hide Encodable, Frame, PackUnsigned, PackSigned, PackWord, Checksum, PackBody, FitsSigned;
    FrameFields(Carrier(offset, q));
  }

  /**
   The worse failure. A value may hold the bytes of a frame; a hint into it is
   believed, and the read yields a record that was never appended.
   */
  lemma ForgedRecord()
    ensures var q := Record(0, 0, None, None); var r := Carrier(0, q);
            && Stored([r], 0)
            && ReadIndexed(EncodeAll([r]), Lookup([Entry(0, 32)], 0, 0), 0) == Stream([q], None)
            && Drain(EncodeAll([r]), 0) == Stream([r], None)
  {
    hide Frame, EncodeAll, ReadOne, Drain, Lookup;
    var q := Record(0, 0, None, None);
    FrameSize(q);
    var r := Carrier(0, q);
    EncodeOne(r);
    EncodeOne(q);
    CarrierFrame(0, q);
    LookupOnly();
    NothingEnds();
    DrainStored([r], 0, [], 0);
    DrainStored([q], 0, [], 0);
    ReadFrame(q, []);
    assert EncodeAll([r]) + [] == EncodeAll([r]) && EncodeAll([q]) + [] == Frame(q) == Frame(q) + [];
  }

  /**
   Nor does every hint that is believed away from a record do harm: here the
   forged record is below the offset sought, and the next record follows it.
   */
  lemma ForgedButHarmless()
    ensures var q := Record(0, 0, None, None); var rs := [Carrier(0, q), Record(1, 0, None, None)];
            var hint := Lookup([Entry(0, 32)], 0, 1);
            && Stored(rs, 0)
            && Verified(EncodeAll(rs), hint) && !AtRecord(rs, hint.1)
            && ReadIndexed(EncodeAll(rs), hint, 1) == Drain(EncodeAll(rs), 1)
  {
    hide Frame, EncodeAll, ReadOne, Drain, Lookup, Holds, Total;
    var q, r1 := Record(0, 0, None, None), Record(1, 0, None, None);
    FrameSize(q);
    var r0 := Carrier(0, q);
    var rs := [r0, r1];
    EncodeTwo(r0, r1);
    EncodeTwo(q, r1);
    CarrierFrame(0, q);
    LookupOnly();
    NothingEnds();
    var file := EncodeAll(rs);
    assert file + [] == file;
    DropConcat(Frame(r0), Frame(r1), 32);
    assert SeekTo(file, 32) == EncodeAll([q, r1]);
    ReadFrame(q, Frame(r1));
    StartsOfTwo(r0, r1);
    LaterOfTwo(q, r1);
    assert EncodeAll([q, r1]) + [] == EncodeAll([q, r1]);
    HoldsBy(SeekTo(file, 32), 1, [r1], [q, r1], []);
    assert Suffix(rs, 1) == [r1];
    EntriesExactly(rs, 0, [], [Entry(0, 32)], 1);
  }

  lemma HoldsBy(s: seq<byte>, offset: int, wanted: seq<Record>, xs: seq<Record>, torn: seq<byte>)
    requires Parses(s, xs, torn) && From(xs, offset) == wanted
    ensures Holds(s, offset, wanted)
  {
    hide Parses, From;
  }

  lemma LaterOfTwo(q: Record, r: Record)
    requires q.offset < 1 <= r.offset
    ensures From([q, r], 1) == [r]
  {
    assert [r][1..] == [] && From([r], 1) == [r] + From([], 1);
    assert [q, r][1..] == [r];
  }

  lemma EncodeTwo(a: Record, b: Record)
    requires Encodable(a) && Encodable(b)
    ensures EncodeAll([a, b]) == Frame(a) + Frame(b)
  {
    hide Encodable, Frame, EncodeAll;
    EncodeHead([a, b]);
    assert [a, b][1..] == [b];
    EncodeOne(b);
  }

  lemma StartsOfTwo(a: Record, b: Record)
    ensures Start([a, b], 0) == 0 && Start([a, b], 1) == Size(a)
  {
    assert [a, b][..1] == [a] && [a][..0] == [];
  }
}
