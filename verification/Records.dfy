/**
 The record codec: one length-delimited frame with a checksum over everything
 below the checksum field.

   offset 8 | size 4 | crc 4 | timestamp 8 | klen 4 | vlen 4 | key | value
 */
module Records {
  import opened Bytes
  import opened Crc32

  datatype Record = Record(offset: int, timestamp: int, key: Option<seq<byte>>, value: Option<seq<byte>>)

  const PREFIX_SIZE := 12
  const HEADER_SIZE := 32
  const NULL := -1
  const MAX_SIZE := 0x10_0000

  function Payload(b: Option<seq<byte>>): seq<byte> {
    if b.Some? then b.value else []
  }

  function DeclaredLength(b: Option<seq<byte>>): int {
    if b.Some? then |b.value| else NULL
  }

  function Checksum(body: seq<byte>, key: seq<byte>, value: seq<byte>): word {
    Crc(value, Crc(key, Crc(body, 0)))
  }

  function Size(r: Record): nat {
    HEADER_SIZE + |Payload(r.key)| + |Payload(r.value)|
  }

  function PackBody(timestamp: int, klen: int, vlen: int): (s: seq<byte>)
    requires FitsSigned(timestamp, 8) && FitsSigned(klen, 4) && FitsSigned(vlen, 4)
    ensures |s| == 16
  {
    PackSigned(timestamp, 8) + PackSigned(klen, 4) + PackSigned(vlen, 4)
  }

  /** The error that encoding a record raises, if it raises one: its checks, in order. */
  function Refusal(r: Record): Option<Error> {
    if !FitsSigned(r.timestamp, 8) || |Payload(r.key)| >= 0x8000_0000 || |Payload(r.value)| >= 0x8000_0000 then
      Some(StructError)
    else if Size(r) > PREFIX_SIZE + MAX_SIZE then
      Some(ValueError)
    else if !FitsSigned(r.offset, 8) then
      Some(StructError)
    else
      None
  }

  function Encode(r: Record): Result<seq<byte>> {
    match Refusal(r)
    case Some(e) => Err(e)
    case None =>
      var key, value := Payload(r.key), Payload(r.value);
      var body := PackBody(r.timestamp, DeclaredLength(r.key), DeclaredLength(r.value));
      var crc := Checksum(body, key, value);
      Ok(PackSigned(r.offset, 8) + PackUnsigned(20 + |key| + |value|, 4) + PackWord(crc) + body + key + value)
  }

  function Decode(buf: seq<byte>): Result<Record> {
    if |buf| < PREFIX_SIZE then
      Err(StructError)
    else
      var offset := UnpackSigned(buf[..8]);
      var size := UnpackUnsigned(buf[8..12]);
      if size > MAX_SIZE then
        Err(CorruptRecord)
      else if PREFIX_SIZE + size > |buf| then
        Err(CorruptRecord)
      else if |buf| < HEADER_SIZE then
        Err(StructError)                 // no room for crc, timestamp, klen and vlen
      else
        var body := buf[16..32];
        var timestamp, klen, vlen := UnpackSigned(body[..8]), UnpackSigned(body[8..12]), UnpackSigned(body[12..]);
        if klen < NULL || vlen < NULL then
          Err(CorruptRecord)
        else
          var keyLen, valueLen := if klen < 0 then 0 else klen, if vlen < 0 then 0 else vlen;
          if 20 + keyLen + valueLen != size then
            Err(CorruptRecord)
          else
            var key, value := buf[32..32 + keyLen], buf[32 + keyLen..32 + keyLen + valueLen];
            if Checksum(body, key, value) != UnpackWord(buf[12..16]) then
              Err(CorruptRecord)
            else
              Ok(Record(offset, timestamp,
                        if klen != NULL then Some(key) else None,
                        if vlen != NULL then Some(value) else None))
  }

  datatype ReadOutcome =
    | End                                    // None: end of file or a torn tail
    | Found(record: Record, length: nat)     // and how far the stream advanced
    | Failed(error: Error)

  /** Reads one record from a stream whose unread bytes are `s`. */
  function ReadOne(s: seq<byte>): (out: ReadOutcome)
    ensures out.Found? ==> PREFIX_SIZE <= out.length <= |s|
  {
    if |s| < PREFIX_SIZE then
      End
    else
      var size := UnpackUnsigned(s[8..12]);
      if size > MAX_SIZE then
        Failed(CorruptRecord)
      else if |s| < PREFIX_SIZE + size then
        End
      else
        match Decode(s[..PREFIX_SIZE] + s[PREFIX_SIZE..PREFIX_SIZE + size])
        case Ok(r) => Found(r, PREFIX_SIZE + size)
        case Err(e) => Failed(e)
  }

  /** The records that `encode` accepts. */
  predicate Encodable(r: Record) {
    && -0x8000_0000_0000_0000 <= r.offset < 0x8000_0000_0000_0000
    && -0x8000_0000_0000_0000 <= r.timestamp < 0x8000_0000_0000_0000
    && Size(r) <= PREFIX_SIZE + MAX_SIZE
  }

  lemma EncodableIff(r: Record)
    ensures Encodable(r) <==> Encode(r).Ok?
    ensures var size := 20 + |Payload(r.key)| + |Payload(r.value)|;
            && (Encode(r).Ok? <==>
                  && -0x8000_0000_0000_0000 <= r.offset < 0x8000_0000_0000_0000
                  && -0x8000_0000_0000_0000 <= r.timestamp < 0x8000_0000_0000_0000
                  && size <= 0x10_0000)
            && (Encode(r) == Err(ValueError) <==>
                  && -0x8000_0000_0000_0000 <= r.timestamp < 0x8000_0000_0000_0000
                  && |Payload(r.key)| < 0x8000_0000 && |Payload(r.value)| < 0x8000_0000
                  && size > 0x10_0000)
    ensures Encode(r).Err? ==> Encode(r).error == ValueError || Encode(r).error == StructError
  {
    hide PackBody, PackSigned, PackUnsigned, PackWord, Checksum, Pow256;
  }

  lemma RefusalEncodes(r: Record)
    ensures Refusal(r).None? <==> Encode(r).Ok?
    ensures Encode(r).Err? ==> Refusal(r) == Some(Encode(r).error)
  {
    hide PackBody, PackSigned, PackUnsigned, PackWord, Checksum, Pow256;
  }

  function Frame(r: Record): seq<byte>
    requires Encodable(r)
  {
    EncodableIff(r);
    Encode(r).value
  }

  /** Where each field of a frame lies. */
  lemma FrameFields(r: Record)
    requires Encodable(r)
    ensures var f := Frame(r); var key, value := Payload(r.key), Payload(r.value);
            && FitsSigned(r.offset, 8) && FitsSigned(r.timestamp, 8)
            && FitsSigned(DeclaredLength(r.key), 4) && FitsSigned(DeclaredLength(r.value), 4)
            && var body := PackBody(r.timestamp, DeclaredLength(r.key), DeclaredLength(r.value));
            && |f| == Size(r) <= PREFIX_SIZE + MAX_SIZE
            && f[..8] == PackSigned(r.offset, 8)
            && f[8..12] == PackUnsigned(Size(r) - PREFIX_SIZE, 4)
            && f[12..16] == PackWord(Checksum(body, key, value))
            && f[16..32] == body
            && f[32..32 + |key|] == key
            && f[32 + |key|..] == value
  {
    hide PackSigned, PackUnsigned, PackWord, Checksum, PackBody;
    EncodableIff(r);
  }

  lemma FrameSize(r: Record)
    requires Encodable(r)
    ensures |Frame(r)| == Size(r) <= PREFIX_SIZE + MAX_SIZE
    ensures UnpackUnsigned(Frame(r)[8..12]) == Size(r) - PREFIX_SIZE
  {
    FrameFields(r);
    Widths();
    UnpackPackUnsigned(Size(r) - PREFIX_SIZE, 4);
  }

  lemma UnpackBody(timestamp: int, klen: int, vlen: int)
    requires FitsSigned(timestamp, 8) && FitsSigned(klen, 4) && FitsSigned(vlen, 4)
    ensures var body := PackBody(timestamp, klen, vlen);
            && UnpackSigned(body[..8]) == timestamp
            && UnpackSigned(body[8..12]) == klen
            && UnpackSigned(body[12..]) == vlen
  {
    hide PackSigned, UnpackSigned, FitsSigned;
    var body := PackBody(timestamp, klen, vlen);
    assert body[..8] == PackSigned(timestamp, 8);
    assert body[8..12] == PackSigned(klen, 4);
    assert body[12..] == PackSigned(vlen, 4);
    UnpackPackSigned(timestamp, 8);
    UnpackPackSigned(klen, 4);
    UnpackPackSigned(vlen, 4);
  }

  lemma RepackBody(body: seq<byte>)
    requires |body| == 16
    ensures var timestamp, klen, vlen := UnpackSigned(body[..8]), UnpackSigned(body[8..12]), UnpackSigned(body[12..]);
            && FitsSigned(timestamp, 8) && FitsSigned(klen, 4) && FitsSigned(vlen, 4)
            && PackBody(timestamp, klen, vlen) == body
  {
    hide PackSigned, UnpackSigned, FitsSigned;
    Widths();
    PackUnpackSigned(body[..8]);
    PackUnpackSigned(body[8..12]);
    PackUnpackSigned(body[12..]);
    assert body == body[..8] + body[8..12] + body[12..];
  }

  /** Every record that `encode` accepts decodes to itself, null kept apart from empty. */
  lemma DecodeEncode(r: Record)
    requires Encodable(r)
    ensures Decode(Frame(r)) == Ok(r)
  {
    hide PackSigned, UnpackSigned, PackWord, UnpackWord, Checksum, PackBody, FitsSigned, PackUnsigned, UnpackUnsigned, Encode;
    FrameFields(r);
    FrameSize(r);
    var key, value := Payload(r.key), Payload(r.value);
    var klen, vlen := DeclaredLength(r.key), DeclaredLength(r.value);
    var body := PackBody(r.timestamp, klen, vlen);
    UnpackPackSigned(r.offset, 8);
    UnpackPackWord(Checksum(body, key, value));
    UnpackBody(r.timestamp, klen, vlen);
    var f := Frame(r);
    assert f[32 + |key|..32 + |key| + |value|] == f[32 + |key|..];
    assert f[16..32] == body;
  }

  /** Every successful `decode` re-encodes to the very bytes it read. */
  lemma EncodeDecode(buf: seq<byte>)
    requires Decode(buf).Ok?
    ensures var r := Decode(buf).value;
            && Encodable(r)
            && Size(r) <= |buf|
            && Frame(r) == buf[..Size(r)]
  {
    hide PackSigned, UnpackSigned, PackWord, UnpackWord, Checksum, PackBody, FitsSigned, PackUnsigned, UnpackUnsigned;
    Widths();
    var r := Decode(buf).value;
    var size := UnpackUnsigned(buf[8..12]);
    var body := buf[16..32];
    PackUnpackSigned(buf[..8]);
    PackUnpackUnsigned(buf[8..12]);
    PackUnpackWord(buf[12..16]);
    RepackBody(body);
    assert DeclaredLength(r.key) == UnpackSigned(body[8..12]);
    assert DeclaredLength(r.value) == UnpackSigned(body[12..]);
    EncodableIff(r);
    var k := |Payload(r.key)|;
    assert Payload(r.key) == buf[32..32 + k];
    assert Payload(r.value) == buf[32 + k..12 + size];
    assert buf[..12 + size]
        == buf[..8] + buf[8..12] + buf[12..16] + body + buf[32..32 + k] + buf[32 + k..12 + size];
  }

  /** The checksum field is the CRC of every byte below it. */
  lemma ChecksumCovers(r: Record)
    requires Encodable(r)
    ensures var f := Frame(r); |f| >= 32 && f[12..16] == PackWord(Crc(f[16..], 0))
  {
    hide PackSigned, PackWord, PackBody, Crc, Frame, PackUnsigned, UnpackUnsigned;
    FrameFields(r);
    FrameSize(r);
    var f, key, value := Frame(r), Payload(r.key), Payload(r.value);
    var body := f[16..32];
    CrcConcat(body, key, 0);
    CrcConcat(body + key, value, 0);
    assert f[16..] == body + key + value;
  }

  /** The very bytes of one record, big-endian and field by field: offset, size, checksum, timestamp, lengths, key. */
  lemma FrameBytes()
    ensures var r := Record(0x0102, 0x01_0203, Some([0x6b]), None);
            var below := [0, 0, 0, 0, 0, 1, 2, 3, 0, 0, 0, 1, 255, 255, 255, 255, 0x6b];
            && Encodable(r)
            && Frame(r) == [0, 0, 0, 0, 0, 0, 1, 2, 0, 0, 0, 21] + PackWord(Crc(below, 0)) + below
  {
    hide PackSigned, PackUnsigned, PackWord, PackBody, Crc, Frame;
    var r := Record(0x0102, 0x01_0203, Some([0x6b]), None);
    ChecksumCovers(r);
    FrameFields(r);
    assert Frame(r)[32..33] == [0x6b] && |Frame(r)| == 33;
    var f := Frame(r);
    PackedBytes();
    BodyIs(0x01_0203, 1, -1);
    BelowIs(f);
    assert f == f[..8] + f[8..12] + f[12..16] + f[16..];
    assert f[..8] + f[8..12] == [0, 0, 0, 0, 0, 0, 1, 2, 0, 0, 0, 21];
  }

  lemma BelowIs(f: seq<byte>)
    requires |f| == 33 && f[16..32] == [0, 0, 0, 0, 0, 1, 2, 3] + [0, 0, 0, 1] + [255, 255, 255, 255] && f[32..] == [0x6b]
    ensures f[16..] == [0, 0, 0, 0, 0, 1, 2, 3, 0, 0, 0, 1, 255, 255, 255, 255, 0x6b]
  {
    assert f[16..] == f[16..32] + f[32..];
  }

  lemma BodyIs(timestamp: int, klen: int, vlen: int)
    requires FitsSigned(timestamp, 8) && FitsSigned(klen, 4) && FitsSigned(vlen, 4)
    ensures PackBody(timestamp, klen, vlen) == PackSigned(timestamp, 8) + PackSigned(klen, 4) + PackSigned(vlen, 4)
  {
  }

  /** A number is packed into the bytes that unpack to it. */
  lemma PackedIs(n: int, s: seq<byte>)
    requires Range(|s|) % 2 == 0 && FitsSigned(n, |s|) && UnpackSigned(s) == n
    ensures PackSigned(n, |s|) == s
  {
    hide UnpackSigned, PackSigned, FitsSigned;
    PackUnpackSigned(s);
  }

  lemma PackedBytes()
    ensures PackSigned(0x0102, 8) == [0, 0, 0, 0, 0, 0, 1, 2]
    ensures PackSigned(0x01_0203, 8) == [0, 0, 0, 0, 0, 1, 2, 3]
    ensures PackSigned(1, 4) == [0, 0, 0, 1] && PackSigned(-1, 4) == [255, 255, 255, 255]
    ensures PackUnsigned(21, 4) == [0, 0, 0, 21]
  {
    hide PackSigned, PackUnsigned, OfByte;
    UnpackEight([0, 0, 0, 0, 0, 0, 1, 2]);
    UnpackEight([0, 0, 0, 0, 0, 1, 2, 3]);
    UnpackFour([0, 0, 0, 1]);
    UnpackFour([255, 255, 255, 255]);
    UnpackFour([0, 0, 0, 21]);
    PackedIs(0x0102, [0, 0, 0, 0, 0, 0, 1, 2]);
    PackedIs(0x01_0203, [0, 0, 0, 0, 0, 1, 2, 3]);
    PackedIs(1, [0, 0, 0, 1]);
    PackedIs(-1, [255, 255, 255, 255]);
    PackUnpackUnsigned([0, 0, 0, 21]);
  }

  /** Four bytes stand for a number with the most significant first, each byte for its value. */
  lemma UnpackFour(s: seq<byte>)
    requires |s| == 4
    ensures UnpackUnsigned(s)
         == 0x100_0000 * (s[0] as int) + 0x1_0000 * (s[1] as int) + 0x100 * (s[2] as int) + s[3] as int
  {
    hide OfByte, UnpackUnsigned;
    UnpackPrefix(s, 1);
    UnpackPrefix(s, 2);
    UnpackPrefix(s, 3);
    UnpackPrefix(s, 4);
    assert s[..4] == s;
  }

  lemma UnpackEight(s: seq<byte>)
    requires |s| == 8
    ensures UnpackUnsigned(s)
         == 0x1_0000_0000 * UnpackUnsigned(s[..4])
            + 0x100_0000 * (s[4] as int) + 0x1_0000 * (s[5] as int) + 0x100 * (s[6] as int) + s[7] as int
    ensures UnpackUnsigned(s[..4])
         == 0x100_0000 * (s[0] as int) + 0x1_0000 * (s[1] as int) + 0x100 * (s[2] as int) + s[3] as int
  {
    hide OfByte, UnpackUnsigned;
    UnpackFour(s[..4]);
    UnpackPrefix(s, 5);
    UnpackPrefix(s, 6);
    UnpackPrefix(s, 7);
    UnpackPrefix(s, 8);
    assert s[..8] == s;
  }

  lemma UnpackPrefix(s: seq<byte>, n: nat)
    requires 0 < n <= |s|
    ensures UnpackUnsigned(s[..n]) == 256 * UnpackUnsigned(s[..n - 1]) + s[n - 1] as int
    ensures UnpackUnsigned(s[..0]) == 0
  {
    hide OfByte;
    OfByteIs(s[n - 1]);
    assert s[..n][..n - 1] == s[..n - 1];
  }

  /**
   How a decode fails. It raises struct.error exactly when there are too few bytes
   to unpack: fewer than a prefix, or a claimed size that the buffer does hold but
   that is too short for the fixed fields. Every other failure is CorruptRecord.
   */
  lemma DecodeErrors(buf: seq<byte>)
    requires Decode(buf).Err?
    ensures Decode(buf).error == StructError <==>
              |buf| < 12 || (UnpackUnsigned(buf[8..12]) <= 0x10_0000 && 12 + UnpackUnsigned(buf[8..12]) <= |buf| < 32)
    ensures Decode(buf).error == StructError || Decode(buf).error == CorruptRecord
  {
    hide UnpackSigned, UnpackUnsigned, UnpackWord, Checksum;
  }

  // ------------------------------------------------------------- streams

  lemma ReadOneExact(s: seq<byte>)
    requires |s| >= PREFIX_SIZE
    requires var size := UnpackUnsigned(s[8..12]); size <= MAX_SIZE && PREFIX_SIZE + size <= |s|
    ensures var n := PREFIX_SIZE + UnpackUnsigned(s[8..12]);
            ReadOne(s) == match Decode(s[..n]) case Ok(r) => Found(r, n) case Err(e) => Failed(e)
  {
    hide Decode, UnpackUnsigned;
    var n := PREFIX_SIZE + UnpackUnsigned(s[8..12]);
    assert s[..PREFIX_SIZE] + s[PREFIX_SIZE..n] == s[..n];
  }

  /** A frame is read back whole, whatever follows it. */
  lemma ReadFrame(r: Record, rest: seq<byte>)
    requires Encodable(r)
    ensures ReadOne(Frame(r) + rest) == Found(r, Size(r))
  {
    hide Encode, Decode, ReadOne, UnpackUnsigned;
    var s := Frame(r) + rest;
    FrameSize(r);
    assert s[8..12] == Frame(r)[8..12];
    assert s[..Size(r)] == Frame(r);
    ReadOneExact(s);
    DecodeEncode(r);
  }

  /** What `read_one` returns is exactly the frame it advanced over. */
  lemma ReadFound(s: seq<byte>)
    requires ReadOne(s).Found?
    ensures var r := ReadOne(s).record;
            && Encodable(r)
            && ReadOne(s).length == Size(r) <= |s|
            && s[..Size(r)] == Frame(r)
  {
    hide Encode, Decode, UnpackUnsigned;
    var n := PREFIX_SIZE + UnpackUnsigned(s[8..12]);
    ReadOneExact(s);
    EncodeDecode(s[..n]);
    var r := ReadOne(s).record;
    FrameSize(r);
    assert s[8..12] == s[..n][..Size(r)][8..12];
  }

  /** Every strict prefix of a frame looks like a torn tail. */
  lemma ReadTorn(r: Record, cut: nat)
    requires Encodable(r) && cut < Size(r)
    ensures |Frame(r)| == Size(r)
    ensures ReadOne(Frame(r)[..cut]) == End
  {
    hide Encode, Decode, UnpackUnsigned;
    FrameSize(r);
    if cut >= PREFIX_SIZE {
      assert Frame(r)[..cut][8..12] == Frame(r)[8..12];
    }
  }
}
