/** Reading a segment: the plain scan, and the indexed read that must agree with it. */
module Reading {
  import opened Bytes
  import opened Bisect
  import opened Records
  import opened Frames
  import opened Indexes

  /** What a generator yields before it stops, and the exception that stopped it, if any. */
  datatype Stream = Stream(records: seq<Record>, error: Option<Error>)

  function Yield(r: Record, offset: int, rest: Stream): Stream {
    if r.offset >= offset then rest.(records := [r] + rest.records) else rest
  }

  /** Reads on to the end, yielding the records from `offset` on. */
  function Drain(s: seq<byte>, offset: int): Stream
    decreases |s|
  {
    match ReadOne(s)
    case End => Stream([], None)
    case Failed(e) => Stream([], Some(e))
    case Found(r, n) => Yield(r, offset, Drain(s[n..], offset))
  }

  /** What is left to read after seeking; a seek may go past the end. */
  function SeekTo(file: seq<byte>, position: nat): seq<byte> {
    if position <= |file| then file[position..] else []
  }

  /** A hint is used only when the record found there carries the promised offset. */
  function Verified(file: seq<byte>, hint: (int, nat)): bool {
    var out := ReadOne(SeekTo(file, hint.1));
    out.Found? && out.record.offset == hint.0
  }

  function ReadIndexed(file: seq<byte>, hint: (int, nat), offset: int): Stream {
    var out := ReadOne(SeekTo(file, hint.1));
    if out.Failed? && out.error != CorruptRecord then
      Stream([], Some(out.error))
    else if Verified(file, hint) then
      Drain(SeekTo(file, hint.1), offset)
    else
      Drain(file, offset)
  }

  /** The records of rs from the n-th on; all of them when n is not positive. */
  function Suffix<T>(rs: seq<T>, n: int): seq<T> {
    if n <= 0 then rs else if n <= |rs| then rs[n..] else []
  }

  lemma {:induction false} DrainStored(rs: seq<Record>, base: int, tail: seq<byte>, offset: int)
    requires Stored(rs, base) && ReadOne(tail) == End
    ensures Drain(EncodeAll(rs) + tail, offset) == Stream(Suffix(rs, offset - base), None)
  {
    hide EncodeAll, Encodable, Frame, Size, ReadOne;
    ParseHead(rs, tail);
    if rs == [] {
    } else {
      DrainStored(rs[1..], base + 1, tail, offset);
      assert rs == [rs[0]] + rs[1..];
      if offset > base {
        assert Suffix(rs, offset - base) == Suffix(rs[1..], offset - base - 1);
      }
    }
  }

  lemma StoredSuffix(rs: seq<Record>, base: int, i: nat)
    requires Stored(rs, base) && i <= |rs|
    ensures Stored(rs[i..], base + i)
  {
    hide Encodable;
  }

  /** A scan that starts at a record no later than the one sought yields the same. */
  lemma DrainFromRecord(rs: seq<Record>, base: int, tail: seq<byte>, i: nat, offset: int)
    requires Stored(rs, base) && ReadOne(tail) == End
    requires i < |rs| && base + i <= offset
    ensures var file := EncodeAll(rs) + tail;
            && Start(rs, i) <= |file|
            && ReadOne(file[Start(rs, i)..]).Found?
            && ReadOne(file[Start(rs, i)..]).record == rs[i]
            && Drain(file[Start(rs, i)..], offset) == Drain(file, offset)
  {
    hide EncodeAll, Encodable, Frame, Size, ReadOne, Drain, Total;
    var file := EncodeAll(rs) + tail;
    EncodeFrom(rs, i);
    assert file[Start(rs, i)..] == EncodeAll(rs[i..]) + tail;
    StoredSuffix(rs, base, i);
    ParseHead(rs[i..], tail);
    DrainStored(rs[i..], base + i, tail, offset);
    DrainStored(rs, base, tail, offset);
  }

  /**
   An entry that cannot mislead: it points at the start of some record, or at
   bytes the reader refuses (past the end, torn, corrupt, or another offset).
   */
  ghost predicate Harmless(rs: seq<Record>, file: seq<byte>, base: int, e: Entry) {
    || (exists i :: 0 <= i < |rs| && e.position == Start(rs, i))
    || var out := ReadOne(SeekTo(file, e.position));
       && (out.Failed? ==> out.error == CorruptRecord)
       && (out.Found? ==> out.record.offset != base + e.relative)
  }

  lemma PastEndIsHarmless(rs: seq<Record>, file: seq<byte>, base: int, e: Entry)
    requires e.position >= |file|
    ensures Harmless(rs, file, base, e)
  {
    assert SeekTo(file, e.position) == [];
  }

  lemma HintAtRecord(rs: seq<Record>, base: int, tail: seq<byte>, i: nat, promised: int, offset: int)
    requires Stored(rs, base) && ReadOne(tail) == End
    requires i < |rs| && promised <= offset
    ensures ReadIndexed(EncodeAll(rs) + tail, (promised, Start(rs, i)), offset) == Drain(EncodeAll(rs) + tail, offset)
  {
    hide EncodeAll, Encodable, Frame, Size, ReadOne, Drain, Total;
    var file := EncodeAll(rs) + tail;
    if promised == base + i {
      DrainFromRecord(rs, base, tail, i, offset);
    } else {
      EncodeFrom(rs, i);
      assert file[Start(rs, i)..] == EncodeAll(rs[i..]) + tail;
      ParseHead(rs[i..], tail);
    }
  }

  /**
   Index transparency: over a file of records and a torn tail, an indexed read
   yields exactly what a scan from byte 0 yields, for any entries at all,
   sorted or not, as long as none of them is able to mislead.
   */
  lemma IndexTransparent(rs: seq<Record>, base: int, tail: seq<byte>, es: seq<Entry>, offset: int)
    requires Stored(rs, base) && ReadOne(tail) == End
    requires forall e :: e in es ==> Harmless(rs, EncodeAll(rs) + tail, base, e)
    requires base <= offset
    ensures ReadIndexed(EncodeAll(rs) + tail, Lookup(es, base, offset), offset)
         == Drain(EncodeAll(rs) + tail, offset)
    ensures Drain(EncodeAll(rs) + tail, offset) == Stream(Suffix(rs, offset - base), None)
  {
    hide EncodeAll, Encodable, Frame, Size, ReadOne, Drain, Total, Search;
    var file := EncodeAll(rs) + tail;
    DrainStored(rs, base, tail, offset);
    var n := BisectRight(Relatives(es), offset - base);
    Boundary(Relatives(es), offset - base);
    var hint := Lookup(es, base, offset);
    if n == 0 {
      if rs == [] {
        ParseHead(rs, tail);
        assert SeekTo(file, 0) == file;
      } else {
        StartOfFirst(rs);
        HintAtRecord(rs, base, tail, 0, base, offset);
      }
    } else {
      var e := es[n - 1];
      assert e in es && hint == (base + e.relative, e.position);
      if i :| 0 <= i < |rs| && e.position == Start(rs, i) {
        HintAtRecord(rs, base, tail, i, hint.0, offset);
      }
    }
  }

  /** Every entry an append or a recovery makes is harmless. */
  lemma IndexIsHarmless(rs: seq<Record>, file: seq<byte>, base: int, interval: int)
    requires Numbered(rs, base)
    ensures forall e :: e in IndexOf(rs, base, interval) ==> Harmless(rs, file, base, e)
  {
    hide Start, ReadOne, IndexOf;
    EntriesAtStarts(rs, base, interval);
  }

  lemma NothingEnds()
    ensures ReadOne([]) == End
  {
  }
}
