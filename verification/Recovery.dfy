/**
 What opening a segment makes of the bytes it finds: the scan that rebuilds the
 in-memory state, as a function of the file.
 */
module Recovery {
  import opened Bytes
  import opened Records
  import opened Frames
  import opened Indexes

  datatype Recovered = Recovered(records: seq<Record>, position: nat, entries: seq<Entry>)

  /** The scan from a byte position on: `s` is unread, `next` is the offset expected there. */
  function Scan(s: seq<byte>, base: int, interval: int, next: int, position: nat, entries: seq<Entry>): (out: Result<Recovered>)
    ensures out.Ok? ==> position <= out.value.position <= position + |s|
    decreases |s|
  {
    match ReadOne(s)
    case End => Ok(Recovered([], position, entries))
    case Failed(e) => Err(e)
    case Found(r, n) =>
      if r.offset != next then
        Err(CorruptRecord)
      else
        match Extend(entries, base, interval, r.offset, position)
        case Err(e) => Err(e)
        case Ok(grown) =>
          match Scan(s[n..], base, interval, next + 1, position + n, grown)
          case Err(e) => Err(e)
          case Ok(rest) => Ok(rest.(records := [r] + rest.records))
  }

  function Recover(file: seq<byte>, base: int, interval: int): (out: Result<Recovered>)
    ensures out.Ok? ==> out.value.position <= |file|
  {
    Scan(file, base, interval, base, 0, [])
  }

  /** No guard of the index trips while these records are fed to it. */
  ghost predicate Indexable(rs: seq<Record>, base: int, interval: int) {
    forall i {:trigger Feeds(rs, base, interval, i)} :: 0 <= i < |rs| ==> Feeds(rs, base, interval, i)
  }

  /** The index takes record i after those before it. */
  predicate Feeds(rs: seq<Record>, base: int, interval: int, i: nat)
    requires i < |rs|
  {
    Extend(IndexOf(rs[..i], base, interval), base, interval, rs[i].offset, Start(rs, i)).Ok?
  }

  lemma AddressableIsIndexable(rs: seq<Record>, base: int, interval: int)
    requires interval >= 1 && Numbered(rs, base) && Addressable(rs)
    ensures Indexable(rs, base, interval)
  {
    hide Extend, IndexOf, Total, Addressable;
    forall i | 0 <= i < |rs|
      ensures Feeds(rs, base, interval, i)
    {
      var front := rs[..i + 1];
      assert front[..i] == rs[..i];
      AddressablePrefix(rs, i + 1);
      IndexFaithful(front, base, interval);
    }
  }

  lemma IndexablePrefix(rs: seq<Record>, n: nat, base: int, interval: int)
    requires Indexable(rs, base, interval) && n <= |rs|
    ensures Indexable(rs[..n], base, interval)
  {
    hide Extend, IndexOf;
    forall i | 0 <= i < n
      ensures Feeds(rs[..n], base, interval, i)
    {
      assert Feeds(rs, base, interval, i);
      assert rs[..n][..i] == rs[..i];
    }
  }

  lemma AddressablePrefix(rs: seq<Record>, n: nat)
    requires Addressable(rs) && n <= |rs|
    ensures Addressable(rs[..n])
  {
    hide Total;
    if n > 0 {
      StartGap(rs, n - 1, |rs| - 1);
      assert rs[..n][..n - 1] == rs[..n - 1];
    }
  }

  lemma IndexOfSnoc(rs: seq<Record>, i: nat, base: int, interval: int)
    requires i < |rs| && Indexable(rs, base, interval)
    ensures Extend(IndexOf(rs[..i], base, interval), base, interval, rs[i].offset, Start(rs, i))
         == Ok(IndexOf(rs[..i + 1], base, interval))
    ensures Start(rs, i + 1) == Start(rs, i) + Size(rs[i])
  {
    hide Extend, Size;
    assert Feeds(rs, base, interval, i);
    assert rs[..i + 1][..i] == rs[..i];
  }

  function Prepend(rs: seq<Record>, out: Result<Recovered>): Result<Recovered> {
    match out
    case Ok(rest) => Ok(rest.(records := rs + rest.records))
    case Err(e) => Err(e)
  }

  lemma PrependNone(out: Result<Recovered>)
    ensures Prepend([], out) == out
  {
    if out.Ok? {
      assert [] + out.value.records == out.value.records;
    }
  }

  lemma PrependTwice(a: seq<Record>, b: seq<Record>, out: Result<Recovered>)
    ensures Prepend(a, Prepend(b, out)) == Prepend(a + b, out)
  {
    if out.Ok? {
      assert a + (b + out.value.records) == (a + b) + out.value.records;
    }
  }

  /** The scan passes over well-formed records and goes on with what follows them. */
  lemma {:induction false} ScanAcross(rs: seq<Record>, i: nat, s: seq<byte>, base: int, interval: int)
    requires i <= |rs| && Stored(rs, base) && Indexable(rs, base, interval)
    ensures Scan(EncodeAll(rs[i..]) + s, base, interval, base + i, Start(rs, i), IndexOf(rs[..i], base, interval))
         == Prepend(rs[i..], Scan(s, base, interval, base + |rs|, Total(rs), IndexOf(rs, base, interval)))
    decreases |rs| - i
  {
    hide ReadOne, Extend, EncodeAll, Encodable, Frame, Size, IndexOf, Total, Indexable;
    ParseHead(rs[i..], s);
    if i == |rs| {
      assert rs[..i] == rs;
      assert rs[i..] == [];
      PrependNone(Scan(s, base, interval, base + |rs|, Total(rs), IndexOf(rs, base, interval)));
    } else {
      assert rs[i..][0] == rs[i] && rs[i..][1..] == rs[i + 1..];
      assert rs[i..] == [rs[i]] + rs[i + 1..];
      IndexOfSnoc(rs, i, base, interval);
      ScanAcross(rs, i + 1, s, base, interval);
      PrependTwice([rs[i]], rs[i + 1..], Scan(s, base, interval, base + |rs|, Total(rs), IndexOf(rs, base, interval)));
    }
  }

  lemma RecoverAcross(rs: seq<Record>, s: seq<byte>, base: int, interval: int)
    requires Stored(rs, base) && Indexable(rs, base, interval)
    ensures Recover(EncodeAll(rs) + s, base, interval)
         == Prepend(rs, Scan(s, base, interval, base + |rs|, Total(rs), IndexOf(rs, base, interval)))
  {
    hide Extend, EncodeAll, Encodable, Indexable, Scan;
    ScanAcross(rs, 0, s, base, interval);
    assert rs[0..] == rs;
    assert rs[..0] == [];
  }

  /** Well-formed records and a torn tail are recovered whole, whatever the tail. */
  lemma RecoverComplete(rs: seq<Record>, tail: seq<byte>, base: int, interval: int)
    requires Stored(rs, base) && Indexable(rs, base, interval)
    requires ReadOne(tail) == End
    ensures Recover(EncodeAll(rs) + tail, base, interval)
         == Ok(Recovered(rs, Total(rs), IndexOf(rs, base, interval)))
  {
    hide Extend, EncodeAll, Encodable, Indexable, ReadOne, Recover, IndexOf, Total;
    RecoverAcross(rs, tail, base, interval);
    assert rs + [] == rs;
  }

  /** What a scan that succeeds has read: records in sequence, then a torn tail. */
  ghost predicate Parsed(s: seq<byte>, rs: seq<Record>, next: int) {
    && Stored(rs, next)
    && |EncodeAll(rs)| <= |s|
    && s[..|EncodeAll(rs)|] == EncodeAll(rs)
    && ReadOne(s[|EncodeAll(rs)|..]) == End
  }

  lemma ParsedNone(s: seq<byte>, next: int)
    requires ReadOne(s) == End
    ensures Parsed(s, [], next)
  {
    hide ReadOne;
    assert s[0..] == s;
  }

  lemma ParsedCons(s: seq<byte>, r: Record, rest: seq<Record>)
    requires ReadOne(s).Found? && ReadOne(s).record == r
    requires Parsed(s[ReadOne(s).length..], rest, r.offset + 1)
    ensures Parsed(s, [r] + rest, r.offset)
  {
    hide ReadOne, EncodeAll, Encodable, Frame, Size;
    var n := ReadOne(s).length;
    ReadFound(s);
    FrameSize(r);
    EncodeHead([r] + rest);
    assert ([r] + rest)[1..] == rest;
    var tail := s[n..];
    var m := |EncodeAll(rest)|;
    assert s == s[..n] + tail;
    assert s[..n + m] == s[..n] + tail[..m];
    assert s[n + m..] == tail[m..];
  }

  function ScanAfter(done: seq<Record>, s: seq<byte>, base: int, interval: int): Result<Recovered> {
    Scan(s, base, interval, base + |done|, Total(done), IndexOf(done, base, interval))
  }

  // One successful turn of the loop.
  lemma ScanStep(done: seq<Record>, s: seq<byte>, base: int, interval: int)
    requires Indexable(done, base, interval)
    requires ReadOne(s).Found? && ScanAfter(done, s, base, interval).Ok?
    ensures var r, n := ReadOne(s).record, ReadOne(s).length;
            var more := done + [r];
            && r.offset == base + |done|
            && Indexable(more, base, interval)
            && ScanAfter(done, s, base, interval) == Prepend([r], ScanAfter(more, s[n..], base, interval))
  {
    hide ReadOne, Extend, Size, IndexOf, Total, Indexable, Encodable, Frame;
    ReadFound(s);
    IndexableSnoc(done, ReadOne(s).record, base, interval);
  }

  /** Opening succeeds only on records numbered from base followed by a torn tail. */
  lemma {:induction false} ScanSound(done: seq<Record>, s: seq<byte>, base: int, interval: int)
    requires Indexable(done, base, interval)
    requires ScanAfter(done, s, base, interval).Ok?
    ensures var out := ScanAfter(done, s, base, interval).value;
            var all := done + out.records;
            && Parsed(s, out.records, base + |done|)
            && Indexable(all, base, interval)
            && out.position == Total(all)
            && out.entries == IndexOf(all, base, interval)
    decreases |s|
  {
    hide ReadOne, Extend, Parsed, Size, IndexOf, Total, Indexable;
    match ReadOne(s)
    case End =>
      ParsedNone(s, base + |done|);
      assert done + [] == done;
    case Found(r, n) =>
      var more := done + [r];
      ScanStep(done, s, base, interval);
      ScanSound(more, s[n..], base, interval);
      var rest := ScanAfter(more, s[n..], base, interval).value.records;
      ParsedCons(s, r, rest);
      assert done + ([r] + rest) == more + rest;
  }

  lemma IndexableSnoc(done: seq<Record>, r: Record, base: int, interval: int)
    requires Indexable(done, base, interval)
    requires Extend(IndexOf(done, base, interval), base, interval, r.offset, Total(done)).Ok?
    ensures Indexable(done + [r], base, interval)
    ensures Extend(IndexOf(done, base, interval), base, interval, r.offset, Total(done))
         == Ok(IndexOf(done + [r], base, interval))
    ensures Total(done + [r]) == Total(done) + Size(r)
  {
    hide Extend, Size;
    var rs := done + [r];
    assert rs[..|done|] == done;
    forall i | 0 <= i < |rs|
      ensures Feeds(rs, base, interval, i)
    {
      if i < |done| {
        assert Feeds(done, base, interval, i);
        assert rs[..i] == done[..i];
      }
    }
  }

  /**
   Opening a file, in full: it succeeds exactly on the encodings of records
   numbered from base, followed by a torn tail. It then finds those records, the
   end of the last one, and the entries their appends would have indexed.
   */
  lemma RecoverIff(file: seq<byte>, base: int, interval: int, rec: Recovered)
    ensures Recover(file, base, interval) == Ok(rec) <==>
              && Parsed(file, rec.records, base)
              && Indexable(rec.records, base, interval)
              && rec.position == Total(rec.records)
              && rec.entries == IndexOf(rec.records, base, interval)
  {
    hide ReadOne, Extend, EncodeAll, Encodable, Total, Scan, Size;
    if Recover(file, base, interval) == Ok(rec) {
      RecoverSound(file, base, interval);
    }
    if Parsed(file, rec.records, base) && Indexable(rec.records, base, interval) {
      var m := |EncodeAll(rec.records)|;
      assert file == file[..m] + file[m..];
      RecoverComplete(rec.records, file[m..], base, interval);
    }
  }

  lemma RecoverSound(file: seq<byte>, base: int, interval: int)
    requires Recover(file, base, interval).Ok?
    ensures var rec := Recover(file, base, interval).value;
            && Parsed(file, rec.records, base)
            && Indexable(rec.records, base, interval)
            && rec.position == Total(rec.records)
            && rec.entries == IndexOf(rec.records, base, interval)
  {
    hide Scan, Extend, Parsed, Size;
    ScanSound([], file, base, interval);
    assert [] + Recover(file, base, interval).value.records == Recover(file, base, interval).value.records;
  }

  /** Recovery leaves exactly the good frames, and recovering again changes nothing. */
  lemma RecoverTwice(file: seq<byte>, base: int, interval: int)
    requires Recover(file, base, interval).Ok?
    ensures var rec := Recover(file, base, interval).value;
            && rec.position <= |file|
            && AllEncodable(rec.records)
            && file[..rec.position] == EncodeAll(rec.records)
            && Recover(file[..rec.position], base, interval) == Ok(rec)
  {
    hide Scan, Extend, EncodeAll, Encodable, Size, Total, Recover, Indexable;
    RecoverSound(file, base, interval);
    var rec := Recover(file, base, interval).value;
    EncodeAllLength(rec.records);
    RecoverComplete(rec.records, [], base, interval);
    assert EncodeAll(rec.records) + [] == file[..rec.position];
  }
}
