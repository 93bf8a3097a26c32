/** One .log file and its index: the bytes on disk against the state in memory. */
module Segments {
  import opened Bytes
  import opened Records
  import opened Frames
  import opened Indexes
  import opened Recovery
  import opened Reading

  /** A .log file: what the operating system holds, and how much of it is known to be on disk. */
  datatype FileState = FileState(bytes: seq<byte>, synced: nat)

  /** The directory of one partition: its .log files, by base offset. */
  class Directory {
    var files: map<int, FileState>

    constructor (files: map<int, FileState>)
      ensures this.files == files
    {
      this.files := files;
    }
  }

  function FileAt(files: map<int, FileState>, base: int): FileState {
    if base in files then files[base] else FileState([], 0)
  }

  function Min(a: nat, b: nat): nat {
    if a < b then a else b
  }

  /** Truncating a file to its good frames. */
  function Truncated(f: FileState, length: nat): FileState
    requires length <= |f.bytes|
  {
    FileState(f.bytes[..length], Min(f.synced, length))
  }

  /** What a segment amounts to: its records, how many bytes are durable, and whether it can be written. */
  datatype SegmentState = SegmentState(base: int, records: seq<Record>, synced: nat, open: bool)

  function NextOffset(s: SegmentState): int {
    s.base + |s.records|
  }

  function Position(s: SegmentState): nat {
    Total(s.records)
  }

  ghost predicate SegmentInv(s: SegmentState) {
    && Stored(s.records, s.base)
    && s.synced <= Position(s)
    && (!s.open ==> s.synced == Position(s))
  }

  function FileOf(s: SegmentState): FileState
    requires AllEncodable(s.records)
  {
    FileState(EncodeAll(s.records), s.synced)
  }

  function HasRoom(s: SegmentState, maxBytes: int, r: Record): bool {
    Position(s) == 0 || Position(s) + Size(r) <= maxBytes
  }

  /** Appending one record, guard by guard; Ok holds where in the file it begins. */
  function AppendTo(s: SegmentState, r: Record): (SegmentState, Result<nat>) {
    if r.offset != NextOffset(s) then
      (s, Err(ValueError))
    else
      match Refusal(r)
      case Some(e) => (s, Err(e))
      case None =>
        if !s.open then
          (s, Err(ValueError))           // write to a closed file
        else
          (s.(records := s.records + [r]),
           match Extend(IndexOf(s.records, s.base, INTERVAL_BYTES), s.base, INTERVAL_BYTES, r.offset, Position(s))
           case Ok(_) => Ok(Position(s))
           case Err(e) => Err(e))
  }

  function Flush(s: SegmentState): SegmentState {
    s.(synced := Position(s))
  }

  function Seal(s: SegmentState): SegmentState {
    if s.open then Flush(s).(open := false) else s
  }

  predicate ValidLimit(maxBytes: int) {
    0 < maxBytes <= MAX_U32 + 1
  }

  class Segment {
    const dir: Directory
    const base: int
    const maxBytes: int
    const index: Index
    var nextOffset: int
    var position: nat
    var open: bool               // the write handle; a sealed segment has none
    ghost var records: seq<Record>
    ghost var synced: nat        // how much of the file is durable

    ghost function State(): SegmentState
      reads this
    {
      SegmentState(base, records, synced, open)
    }

    /** The file is exactly the encodings of the records, and everything in memory agrees with it. */
    ghost predicate Valid()
      reads this, dir, index
    {
      && InMemory()
      && base in dir.files
      && dir.files[base] == FileOf(State())
    }

    ghost predicate InMemory()
      reads this, index
    {
      && ValidLimit(maxBytes)
      && SegmentInv(State())
      && nextOffset == NextOffset(State())
      && position == Position(State())
      && index.Valid()
      && index.base == base && index.interval == INTERVAL_BYTES
      && index.entries == IndexOf(records, base, INTERVAL_BYTES)
      && index.open == open
    }

    constructor (dir: Directory, base: int, maxBytes: int, index: Index, nextOffset: int, position: nat,
                 ghost records: seq<Record>, ghost synced: nat)
      ensures this.dir == dir && this.base == base && this.maxBytes == maxBytes && this.index == index
      ensures this.nextOffset == nextOffset && this.position == position
      ensures this.records == records && this.synced == synced && open
    {
      this.dir := dir;
      this.base := base;
      this.maxBytes := maxBytes;
      this.index := index;
      this.nextOffset := nextOffset;
      this.position := position;
      this.records := records;
      this.synced := synced;
      this.open := true;
    }

    /** Scans the log file, rebuilding the index, and truncates a torn tail. */
    static method RecoverFile(dir: Directory, base: int, index: Index)
      returns (r: Result<(int, nat)>, ghost records: seq<Record>)
      requires index.Valid() && index.open && index.base == base
      requires FileAt(dir.files, base).synced <= |FileAt(dir.files, base).bytes|
      modifies dir, index
      ensures index.Valid() && index.open
      ensures var f := FileAt(old(dir.files), base);
              match Recover(f.bytes, base, index.interval)
              case Ok(rec) =>
                && r == Ok((base + |rec.records|, rec.position))
                && records == rec.records
                && index.entries == rec.entries
                && rec.position <= |f.bytes|
                && dir.files == old(dir.files)[base := Truncated(f, rec.position)]
              case Err(e) => r == Err(e) && dir.files == old(dir.files)[base := f]
    {
      hide ReadOne, Extend, AllPackable, PackEntries;
      var f := FileAt(dir.files, base);
      dir.files := dir.files[base := f];
      index.Clear();
      var next, position := base, 0;
      records := [];
      assert f.bytes[0..] == f.bytes;
      PrependNone(Recover(f.bytes, base, index.interval));
      while true
        invariant index.Valid() && index.open
        invariant dir.files == old(dir.files)[base := f]
        invariant position <= |f.bytes|
        invariant next == base + |records|
        invariant Recover(f.bytes, base, index.interval)
               == Prepend(records, Scan(f.bytes[position..], base, index.interval, next, position, index.entries))
        decreases |f.bytes| - position
      {
        var out := ReadOne(f.bytes[position..]);
        if out.Failed? {
          r := Err(out.error);
          return;
        }
        if out.End? {
          break;
        }
        if out.record.offset != next {
          r := Err(CorruptRecord);
          return;
        }
        ghost var rest := f.bytes[position..];
        var fed := index.MaybeAppend(out.record.offset, position);
        if fed.Err? {
          r := Err(fed.error);
          return;
        }
        assert rest[out.length..] == f.bytes[position + out.length..];
        PrependTwice(records, [out.record],
                     Scan(f.bytes[position + out.length..], base, index.interval, next + 1, position + out.length, index.entries));
        records := records + [out.record];
        next := out.record.offset + 1;
        position := position + out.length;
      }
      assert records + [] == records;
      if position < |f.bytes| {
        dir.files := dir.files[base := Truncated(f, position)];
      } else {
        assert f.bytes[..position] == f.bytes;
      }
      r := Ok((next, position));
    }

    /** Opens, and first recovers, the segment with this base; its index file may hold anything. */
    static method Open(dir: Directory, base: int, maxBytes: int, indexFile: seq<byte>) returns (r: Result<Segment>)
      requires FileAt(dir.files, base).synced <= |FileAt(dir.files, base).bytes|
      modifies dir
      ensures var f := FileAt(old(dir.files), base);
              if !ValidLimit(maxBytes) then
                r == Err(ValueError) && dir.files == old(dir.files)
              else
                match Recover(f.bytes, base, INTERVAL_BYTES)
                case Err(e) => r == Err(e) && dir.files == old(dir.files)[base := f]
                case Ok(rec) =>
                  && r.Ok? && fresh(r.value) && fresh(r.value.index)
                  && r.value.Valid()
                  && r.value.dir == dir && r.value.base == base && r.value.maxBytes == maxBytes
                  && r.value.State() == SegmentState(base, rec.records, Min(f.synced, rec.position), true)
                  && rec.position <= |f.bytes|
                  && dir.files == old(dir.files)[base := Truncated(f, rec.position)]
    {
      hide Recover, EncodeAll, IndexOf, Encodable, Total, Extend, ReadOne, LoadEntries;
      if !(0 < maxBytes <= MAX_U32 + 1) {
        return Err(ValueError);
      }
      ghost var f := FileAt(dir.files, base);
      var index := new Index(indexFile, base, INTERVAL_BYTES);
      var recovered, records := RecoverFile(dir, base, index);
      if recovered.Err? {
        return Err(recovered.error);
      }
      RecoverSound(f.bytes, base, INTERVAL_BYTES);
      EncodeAllLength(records);
      var segment := new Segment(dir, base, maxBytes, index, recovered.value.0, recovered.value.1,
                                 records, Min(f.synced, recovered.value.1));
      return Ok(segment);
    }

    method Append(record: Record) returns (r: Result<nat>)
      requires Valid()
      modifies this, dir, index
      ensures Valid()
      ensures (State(), r) == AppendTo(old(State()), record)
      ensures dir.files == old(dir.files)[base := FileOf(State())]
    {
      hide Encode, EncodeAll, Extend, Total, IndexOf, Size;
      if record.offset != nextOffset {
        return Err(ValueError);
      }
      var start := position;
      var expectedEnd := start + Size(record);
      var encoded := Encode(record);
      EncodableIff(record);
      RefusalEncodes(record);
      if encoded.Err? {
        return Err(encoded.error);
      }
      if !open {
        return Err(ValueError);          // write to a closed file
      }
      var f := dir.files[base];
      EncodeSnoc(records, record);
      FrameSize(record);
      EncodeAllLength(records);
      IndexSnoc(records, record, base, INTERVAL_BYTES);
      dir.files := dir.files[base := FileState(f.bytes + encoded.value, f.synced)];
      var end := |dir.files[base].bytes|;
      // The "another writer?" guard cannot fire.
      assert end == expectedEnd;
      records := records + [record];
      nextOffset := nextOffset + 1;
      position := end;
      var fed := index.MaybeAppend(record.offset, start);
      return if fed.Ok? then Ok(start) else Err(fed.error);
    }

    method Sync() returns (r: Result<()>)
      requires Valid()
      modifies this, dir, index
      ensures Valid()
      ensures r == if open then Ok(()) else Err(ValueError)
      ensures State() == if open then Flush(old(State())) else old(State())
      ensures dir.files == old(dir.files)[base := FileOf(State())]
    {
      hide EncodeAll, Total, IndexOf, Encodable, PackEntries;
      if !open {
        return Err(ValueError);
      }
      EncodeAllLength(records);
      var f := dir.files[base];
      dir.files := dir.files[base := FileState(f.bytes, |f.bytes|)];
      synced := |f.bytes|;
      var _ := index.Sync();
      return Ok(());
    }

    method Close()
      requires Valid()
      modifies this, dir, index
      ensures Valid()
      ensures State() == Seal(old(State()))
      ensures dir.files == old(dir.files)[base := FileOf(State())]
    {
      hide EncodeAll, Total, IndexOf, Encodable, PackEntries;
      if open {
        var _ := Sync();
        open := false;
        index.Close();
      }
    }

    function HasRoomFor(record: Record): (room: bool)
      requires Valid()
      reads this, dir, index
      ensures room == HasRoom(State(), maxBytes, record)
      ensures var file := dir.files[base].bytes;
              var size := 32 + (if record.key.Some? then |record.key.value| else 0)
                             + (if record.value.Some? then |record.value.value| else 0);
              room <==> file == [] || |file| + size <= maxBytes
    {
      EncodeAllLength(records);
      position == 0 || position + Size(record) <= maxBytes
    }

    /** Every record from `offset` on, through the index; exactly the stored suffix. */
    method ReadFrom(offset: int) returns (r: Result<Stream>)
      requires Valid()
      ensures r == if offset < base then Err(ValueError)
                   else Ok(ReadIndexed(dir.files[base].bytes, index.LookupHint(offset), offset))
      ensures offset >= base ==> r == Ok(Stream(Suffix(records, offset - base), None))
    {
      hide EncodeAll, Total, IndexOf, Encodable, PackEntries, Drain, ReadIndexed, Lookup, Extend, ReadOne, Start;
      if offset < base {
        return Err(ValueError);
      }
      var stream := IterFrom(offset);
      NothingEnds();
      IndexIsHarmless(records, EncodeAll(records) + [], base, INTERVAL_BYTES);
      IndexTransparent(records, base, [], index.entries, offset);
      assert EncodeAll(records) + [] == EncodeAll(records);
      return Ok(stream);
    }

    method IterFrom(offset: int) returns (stream: Stream)
      requires Valid()
      ensures stream == ReadIndexed(dir.files[base].bytes, index.LookupHint(offset), offset)
    {
      hide EncodeAll, Total, IndexOf, Encodable, PackEntries, Lookup, Extend, ReadOne;
      var file := dir.files[base].bytes;
      var hint := index.LookupHint(offset);
      var at := hint.1;
      var out := ReadOne(SeekTo(file, at));
      if out.Failed? && out.error != CorruptRecord {
        return Stream([], Some(out.error));
      }
      if !out.Found? || out.record.offset != hint.0 {
        at := 0;
        out := ReadOne(SeekTo(file, at));
      }
      assert SeekTo(file, 0) == file;
      var yielded := [];
      FollowNone(Drain(SeekTo(file, at), offset));
      while out.Found?
        invariant out == ReadOne(SeekTo(file, at))
        invariant ReadIndexed(file, hint, offset) == Follow(yielded, Drain(SeekTo(file, at), offset))
        decreases |SeekTo(file, at)|
      {
        var r, n := out.record, out.length;
        assert SeekTo(file, at)[n..] == SeekTo(file, at + n);
        FollowYield(yielded, r, offset, Drain(SeekTo(file, at + n), offset));
        if r.offset >= offset {
          yielded := yielded + [r];
        }
        at := at + n;
        out := ReadOne(SeekTo(file, at));
      }
      assert yielded + [] == yielded;
      return Stream(yielded, if out.Failed? then Some(out.error) else None);
    }
  }

  function Follow(done: seq<Record>, rest: Stream): Stream {
    rest.(records := done + rest.records)
  }

  lemma FollowNone(rest: Stream)
    ensures Follow([], rest) == rest
  {
    assert [] + rest.records == rest.records;
  }

  lemma FollowYield(done: seq<Record>, r: Record, offset: int, rest: Stream)
    ensures Follow(done, Yield(r, offset, rest)) == Follow(if r.offset >= offset then done + [r] else done, rest)
  {
    assert done + ([r] + rest.records) == (done + [r]) + rest.records;
  }

  lemma IndexSnoc(rs: seq<Record>, r: Record, base: int, interval: int)
    ensures IndexOf(rs + [r], base, interval) ==
              match Extend(IndexOf(rs, base, interval), base, interval, r.offset, Total(rs))
              case Ok(grown) => grown
              case Err(_) => IndexOf(rs, base, interval)
  {
    assert (rs + [r])[..|rs|] == rs;
  }
}
