/**
 Reading a log without its lock while other threads append and roll.

 Only the list of segments is copied under the lock. Each segment is then read
 from its file as that grows, through a buffer that may lag behind it.
 */
module Snapshots {
  import opened Bytes
  import opened Bisect
  import opened Records
  import opened Frames
  import opened Indexes
  import opened Recovery
  import opened Reading
  import opened Segments
  import opened Chains
  import opened Paging
  import opened Appenders

  /** Where a reader is; `done` is history: how many records of the segment lie before `position`. */
  datatype Place =
    | Between(i: nat)                                           // about to look up segment i
    | Seeking(i: nat, hint: (int, nat))
    | Scanning(i: nat, done: nat, position: nat, floor: nat)    // `floor` bytes have been visible already
    | Finished
    | Refused                                                   // before the start of the log
    | Raised

  /** `count` segments were in the snapshot; `committed`, history, is how many records they held. */
  datatype Reader = Reader(offset: int, count: nat, place: Place, yielded: seq<Record>, committed: nat)

  datatype ReadStep =
    | Snapshot(offset: int)
    | LookUp
    | OpenFile
    | ReadNext(seen: nat)     // how much of the file this read can see

  predicate CanRead(segs: seq<Seg>, r: Reader, step: ReadStep) {
    match step
    case Snapshot(_) => false
    case LookUp => r.place.Between? && r.place.i < |segs|
    case OpenFile => r.place.Seeking? && r.place.i < |segs|
    case ReadNext(seen) => r.place.Scanning? && r.place.i < |segs| && r.place.floor <= seen <= |segs[r.place.i].bytes|
  }

  /** The segments as they are now, and the first to read. */
  function TakeSnapshot(segs: seq<Seg>, offset: int): Reader
    requires segs != []
  {
    if offset < segs[0].base then Reader(offset, |segs|, Refused, [], 0)
    else Reader(offset, |segs|, Between(Floored(FloorSegment(Views(segs), offset))), [], |AllRecords(Views(segs))|)
  }

  function Floored(i: int): nat {
    if i < 0 then 0 else i
  }

  function Wanted(r: Reader, s: Seg): int {
    Max(r.offset, s.base)
  }

  /** The hint is verified against the record found there, or the scan starts at byte 0. */
  function Opened(s: Seg, hint: (int, nat)): Option<nat> {
    var out := ReadOne(SeekTo(s.bytes, hint.1));
    if out.Failed? && out.error != CorruptRecord then None
    else if Verified(s.bytes, hint) then Some(hint.1)
    else Some(0)
  }

  function ReadAt(r: Reader, s: Seg, seen: nat): Reader
    requires r.place.Scanning? && seen <= |s.bytes|
  {
    var p := r.place;
    match ReadOne(SeekTo(s.bytes[..seen], p.position))
    case Found(record, n) =>
      r.(yielded := if record.offset >= Wanted(r, s) then r.yielded + [record] else r.yielded,
         place := p.(done := p.done + 1, position := p.position + n, floor := seen))
    case End => r.(place := if p.i + 1 < r.count then Between(p.i + 1) else Finished)
    case Failed(_) => r.(place := Raised)
  }

  function NextRead(segs: seq<Seg>, r: Reader, step: ReadStep): Reader
    requires CanRead(segs, r, step)
  {
    match step
    case LookUp =>
      var s := segs[r.place.i];
      r.(place := Seeking(r.place.i, Lookup(s.entries, s.base, Wanted(r, s))))
    case OpenFile =>
      var s, hint := segs[r.place.i], r.place.hint;
      (match Opened(s, hint)
       case Some(at) => r.(place := Scanning(r.place.i, if at == hint.1 then Floored(hint.0 - s.base) else 0, at, |s.bytes|))
       case None => r.(place := Raised))
    case ReadNext(seen) => ReadAt(r, segs[r.place.i], seen)
  }

  // --------------------------------------------------------------- invariant

  function Held(segs: seq<Seg>): Content
    requires segs != []
  {
    Content(segs[0].base, AllRecords(Views(segs)))
  }

  /** How many records the last segment of the snapshot held then. */
  function CommittedInLast(segs: seq<Seg>, r: Reader): int
    requires 0 < r.count <= |segs|
  {
    segs[0].base + r.committed - segs[r.count - 1].base
  }

  /** At least the first n records of the segment can be read from the first `length` bytes. */
  ghost predicate InReach(s: Seg, n: int, length: nat) {
    0 <= n <= |s.records| && Start(s.records, n) <= length
  }

  /** The bytes of a segment are an initial part of its records' encodings. */
  ghost predicate Readable(s: Seg) {
    Stored(s.records, s.base) && s.bytes <= EncodeAll(s.records)
  }

  /** A hint that leads to a record no later than the one sought, already wholly in the file. */
  ghost predicate GoodHint(s: Seg, hint: (int, nat), wanted: int) {
    || hint == (s.base, 0)
    || (&& s.base <= hint.0 <= wanted && hint.0 - s.base < |s.records|
        && hint.1 == Start(s.records, hint.0 - s.base)
        && InReach(s, hint.0 - s.base + 1, |s.bytes|))
  }

  ghost predicate PlaceInv(segs: seq<Seg>, r: Reader)
    requires 0 < r.count <= |segs|
  {
    var reached := r.offset + |r.yielded|;
    match r.place
    case Between(i) => i < r.count && reached == Max(r.offset, segs[i].base)
    case Seeking(i, hint) =>
      i < r.count && reached == Max(r.offset, segs[i].base) && GoodHint(segs[i], hint, Max(r.offset, segs[i].base))
    case Scanning(i, done, position, floor) =>
      && i < r.count
      && done <= |segs[i].records| && position == Start(segs[i].records, done)
      && position <= floor <= |segs[i].bytes|
      && reached == Max(Max(r.offset, segs[i].base), segs[i].base + done)
      && (i < r.count - 1 ==> floor == |segs[i].bytes|)
      && (i == r.count - 1 ==> InReach(segs[i], CommittedInLast(segs, r), floor))
    case Finished => reached >= segs[0].base + r.committed
    case Refused => r.offset < segs[0].base
    case Raised => false
  }

  ghost predicate ReaderInv(segs: seq<Seg>, r: Reader) {
    && 0 < r.count <= |segs|
    && (r.place.Refused? ==> r.yielded == [])
    && (!r.place.Refused? ==>
          && r.offset >= segs[0].base
          && SliceAt(Held(segs), r.offset, r.yielded)
          && InReach(segs[r.count - 1], CommittedInLast(segs, r), |segs[r.count - 1].bytes|))
    && PlaceInv(segs, r)
  }

  /** What the writers' invariant gives a reader. */
  ghost predicate ReadableAll(segs: seq<Seg>) {
    && SegsInv(segs)
    && forall i :: 0 <= i < |segs| ==> Readable(segs[i]) && CountedEntries(segs[i])
  }

  /** Every entry points at a record that is wholly in the file. */
  ghost predicate CountedEntries(s: Seg) {
    forall e :: e in s.entries ==>
      e.relative < |s.records| && e.position == Start(s.records, e.relative) && InReach(s, e.relative + 1, |s.bytes|)
  }

  // ---------------------------------------------------------------- the file

  /** What a read at the start of a record finds in as much of the file as it can see. */
  lemma ReadsAt(s: Seg, done: nat, seen: nat)
    requires Readable(s) && done <= |s.records|
    requires Start(s.records, done) <= seen <= |s.bytes|
    ensures ReadOne(SeekTo(s.bytes[..seen], Start(s.records, done)))
         == if InReach(s, done + 1, seen) then Found(s.records[done], Size(s.records[done])) else End
    ensures done < |s.records| ==> Start(s.records, done + 1) == Start(s.records, done) + Size(s.records[done])
  {
    hide EncodeAll, Encodable, Total, ReadOne, Frame, Size;
    var rs, all := s.records, EncodeAll(s.records);
    var at := Start(rs, done);
    EncodeFrom(rs, done);
    assert s.bytes[..seen][at..] == all[at..seen];
    if done == |rs| {
      assert rs[..done] == rs;
      NothingEnds();
      assert all[at..seen] == [];
    } else {
      StartGap(rs, done, done + 1);
      if Start(rs, done + 1) <= seen {
        EncodeHead(rs[done..]);
        FrameSize(rs[done]);
        var n := Size(rs[done]);
        assert all[at..seen] == all[at..][..seen - at] == Frame(rs[done]) + all[at + n..seen];
        ReadFrame(rs[done], all[at + n..seen]);
      } else {
        TornTail(rs, done, seen);
      }
    }
  }

  lemma StartOfPrefix(a: seq<Record>, b: seq<Record>, n: nat)
    requires a <= b && n <= |a|
    ensures Start(a, n) == Start(b, n)
  {
    hide Total;
    assert a[..n] == b[..n];
  }

  lemma EntriesCounted(s: Seg, counted: seq<Record>)
    requires counted <= s.records && Numbered(counted, s.base)
    requires s.entries == IndexOf(counted, s.base, INTERVAL_BYTES) && Total(counted) <= |s.bytes|
    ensures CountedEntries(s)
  {
    hide Total, IndexOf;
    EntriesAtStarts(counted, s.base, INTERVAL_BYTES);
    forall e | e in s.entries
      ensures e.relative < |s.records| && e.position == Start(s.records, e.relative)
      ensures InReach(s, e.relative + 1, |s.bytes|)
    {
      StartOfPrefix(counted, s.records, e.relative);
      StartOfPrefix(counted, s.records, e.relative + 1);
      StartGap(counted, e.relative + 1, |counted|);
      assert counted[..|counted|] == counted;
    }
  }

  lemma CompleteReadable(s: Seg)
    requires Complete(s)
    ensures Readable(s) && CountedEntries(s) && |s.bytes| == Total(s.records)
  {
    hide EncodeAll, Encodable, Total, Indexable, IndexOf;
    EncodeAllLength(s.records);
    EntriesCounted(s, s.records);
  }

  lemma PartialReadable(s: Seg, maxBytes: int, record: Record, rest: seq<byte>)
    requires Partial(s, maxBytes, record, rest)
    ensures Readable(s) && CountedEntries(s)
  {
    hide EncodeAll, Encodable, Total, Indexable, IndexOf, Roomy;
    EntriesCounted(s, Front(s.records));
  }

  lemma WritersReadable(w: Writers)
    requires WritersInv(w)
    ensures ReadableAll(w.segs)
  {
    hide Complete, Partial, Readable, CountedEntries, SegsInv, AckInv;
    SegsComplete(w.segs);
    forall i | 0 <= i < |w.segs|
      ensures Readable(w.segs[i]) && CountedEntries(w.segs[i])
    {
      if i < |w.segs| - 1 {
        CompleteReadable(w.segs[i]);
      } else if Holder(w).Some? && Holder(w).value.Writing? {
        PartialReadable(w.segs[i], w.maxBytes, Holder(w).value.record, Holder(w).value.rest);
      } else {
        CompleteReadable(w.segs[i]);
      }
    }
  }

  lemma SegsComplete(segs: seq<Seg>)
    requires SegsInv(segs)
    ensures segs != [] && forall i :: 0 <= i < |segs| - 1 ==> Complete(segs[i])
  {
    hide Complete, Stored, Linked;
  }

  // ------------------------------------------------------- the log's records

  lemma {:induction false} PrefixOfAll(views: seq<SegmentState>, n: nat)
    requires n <= |views|
    ensures AllRecords(views[..n]) <= AllRecords(views)
    decreases |views|
  {
    if n == |views| {
      assert views[..n] == views;
    } else {
      PrefixOfAll(views[..|views| - 1], n);
      assert views[..|views| - 1][..n] == views[..n];
    }
  }

  /** Record j of segment i, in the log as a whole. */
  lemma HeldAt(segs: seq<Seg>, i: nat, j: nat)
    requires SegsInv(segs) && i < |segs| && j < |segs[i].records|
    ensures var at := segs[i].base - segs[0].base + j;
            0 <= at < |Held(segs).records| && Held(segs).records[at] == segs[i].records[j]
  {
    hide Complete, AllRecords, Linked, Stored, Total;
    var views := Views(segs);
    ViewsInv(segs);
    hide SegsInv;
    PrefixCount(views, i);
    PrefixRecords(views, i);
    PrefixOfAll(views, i + 1);
    assert AllRecords(views[..i + 1]) == AllRecords(views[..i]) + segs[i].records;
  }

  lemma LinkedBases(segs: seq<Seg>, i: nat)
    requires SegsInv(segs) && i + 1 < |segs|
    ensures segs[i + 1].base == segs[i].base + |segs[i].records|
  {
    hide Complete, Stored, Total;
    assert Before(Views(segs), i + 1) == Views(segs)[i];
  }

  // ------------------------------------------------------------ reader steps

  lemma LookupIsGood(s: Seg, wanted: int)
    requires CountedEntries(s)
    ensures GoodHint(s, Lookup(s.entries, s.base, wanted), wanted)
  {
    hide InReach, BisectRight, Start;
    Boundary(Relatives(s.entries), wanted - s.base);
    var n := BisectRight(Relatives(s.entries), wanted - s.base);
    if n > 0 {
      assert s.entries[n - 1] in s.entries;
    }
  }

  lemma LookUpKeeps(segs: seq<Seg>, r: Reader)
    requires ReadableAll(segs) && ReaderInv(segs, r) && CanRead(segs, r, LookUp)
    ensures ReaderInv(segs, NextRead(segs, r, LookUp))
  {
    hide SegsInv, Readable, SliceAt, InReach, Lookup, GoodHint, CountedEntries, Held;
    LookupIsGood(segs[r.place.i], Wanted(r, segs[r.place.i]));
  }

  /** A good hint is confirmed, or is byte 0; either way the scan starts at a record no later than the one sought. */
  lemma OpenedAt(s: Seg, hint: (int, nat), wanted: int)
    requires Readable(s) && GoodHint(s, hint, wanted) && s.base <= wanted
    ensures Opened(s, hint) == Some(hint.1)
    ensures var done := hint.0 - s.base;
            0 <= done <= |s.records| && hint.0 <= wanted && hint.1 == Start(s.records, done) <= |s.bytes|
  {
    hide Readable, Total, ReadOne;
    assert s.bytes[..|s.bytes|] == s.bytes;
    if hint == (s.base, 0) {
      StartOfFirst(s.records);
      ReadsAt(s, 0, |s.bytes|);
    } else {
      StartGap(s.records, hint.0 - s.base, hint.0 - s.base + 1);
      ReadsAt(s, hint.0 - s.base, |s.bytes|);
      ReadableOffset(s, hint.0 - s.base);
    }
  }

  lemma OpenKeeps(segs: seq<Seg>, r: Reader)
    requires ReadableAll(segs) && ReaderInv(segs, r) && CanRead(segs, r, OpenFile)
    ensures ReaderInv(segs, NextRead(segs, r, OpenFile))
  {
    hide SegsInv, Readable, CountedEntries, SliceAt, InReach, Opened, GoodHint, Start;
    var s := segs[r.place.i];
    OpenedAt(s, r.place.hint, Wanted(r, s));
  }

  /** The next record of a segment extends a run that has come up to it. */
  lemma RunExtends(segs: seq<Seg>, offset: int, run: seq<Record>, i: nat, done: nat)
    requires SegsInv(segs) && i < |segs| && done < |segs[i].records|
    requires SliceAt(Held(segs), offset, run) && offset >= segs[0].base
    requires offset + |run| == segs[i].base + done
    ensures SliceAt(Held(segs), offset, run + [segs[i].records[done]])
  {
    hide SegsInv, Held;
    HeldAt(segs, i, done);
    FirstHeld(segs);
    var r := segs[i].records[done];
    assert SliceAt(Held(segs), offset + |run|, [r]);
    SliceJoins(Held(segs), offset, run, [r]);
  }

  lemma FoundKeeps(segs: seq<Seg>, r: Reader, seen: nat)
    requires ReadableAll(segs) && ReaderInv(segs, r) && CanRead(segs, r, ReadNext(seen))
    requires InReach(segs[r.place.i], r.place.done + 1, seen)
    ensures ReaderInv(segs, NextRead(segs, r, ReadNext(seen)))
  {
    hide SegsInv, Readable, CountedEntries, GoodHint, Start, Held, ReadOne, Size, SliceAt;
    var s, p := segs[r.place.i], r.place;
    ReadsAt(s, p.done, seen);
    ReadableOffset(s, p.done);
    if s.records[p.done].offset >= Wanted(r, s) {
      RunExtends(segs, r.offset, r.yielded, p.i, p.done);
    }
  }

  lemma FirstHeld(segs: seq<Seg>)
    requires segs != []
    ensures Held(segs).first == segs[0].base
  {
  }

  lemma ReadableOffset(s: Seg, j: nat)
    requires Readable(s) && j < |s.records|
    ensures s.records[j].offset == s.base + j
  {
  }

  lemma EndKeeps(segs: seq<Seg>, r: Reader, seen: nat)
    requires ReadableAll(segs) && ReaderInv(segs, r) && CanRead(segs, r, ReadNext(seen))
    requires !InReach(segs[r.place.i], r.place.done + 1, seen)
    ensures ReaderInv(segs, NextRead(segs, r, ReadNext(seen)))
  {
    hide SegsInv, Readable, CountedEntries, GoodHint, Held, ReadOne, Size, SliceAt, Complete, Total;
    var s, p := segs[r.place.i], r.place;
    ReadsAt(s, p.done, seen);
    if p.i + 1 < r.count {
      SegsComplete(segs);
      CompleteReadable(s);
      assert s.records[..|s.records|] == s.records;
      if p.done < |s.records| {
        StartGap(s.records, p.done + 1, |s.records|);
      }
      LinkedBases(segs, p.i);
    } else {
      var n := CommittedInLast(segs, r);
      if p.done < n {
        StartGap(s.records, p.done + 1, n);
      }
    }
  }

  /** Each step of a reader keeps its invariant, over the segments as they are at that moment. */
  lemma ReadKeeps(segs: seq<Seg>, r: Reader, step: ReadStep)
    requires ReadableAll(segs) && ReaderInv(segs, r) && CanRead(segs, r, step)
    ensures ReaderInv(segs, NextRead(segs, r, step))
  {
    hide ReadableAll, ReaderInv, NextRead, InReach;
    match step
    case LookUp => LookUpKeeps(segs, r);
    case OpenFile => OpenKeeps(segs, r);
    case ReadNext(seen) =>
      if InReach(segs[r.place.i], r.place.done + 1, seen) {
        FoundKeeps(segs, r, seen);
      } else {
        EndKeeps(segs, r, seen);
      }
  }

  // ------------------------------------------------- while the writers write

  lemma InReachGrows(s: Seg, t: Seg, n: int, length: nat)
    requires s.records <= t.records && InReach(s, n, length)
    ensures forall more :: more >= length ==> InReach(t, n, more)
  {
    hide Start;
    StartOfPrefix(s.records, t.records, n);
  }

  lemma GoodHintGrows(s: Seg, t: Seg, hint: (int, nat), wanted: int)
    requires s.base == t.base && s.records <= t.records && s.bytes <= t.bytes && GoodHint(s, hint, wanted)
    ensures GoodHint(t, hint, wanted)
  {
    hide Start, InReach;
    if hint != (s.base, 0) {
      StartOfPrefix(s.records, t.records, hint.0 - s.base);
      InReachGrows(s, t, hint.0 - s.base + 1, |s.bytes|);
    }
  }

  /** What a reader has and expects stays true as the log grows. */
  lemma WritersKeep(segs: seq<Seg>, more: seq<Seg>, r: Reader)
    requires segs != [] && Grows(segs, more) && ReaderInv(segs, r)
    ensures ReaderInv(more, r)
  {
    hide AllRecords, Views, SliceAt, InReach, PlaceInv;
    PlaceKept(segs, more, r);
    if !r.place.Refused? {
      SliceGrows(Held(segs), Held(more), r.offset, r.yielded);
      InReachGrows(segs[r.count - 1], more[r.count - 1], CommittedInLast(segs, r), |segs[r.count - 1].bytes|);
    }
  }

  lemma PlaceKept(segs: seq<Seg>, more: seq<Seg>, r: Reader)
    requires segs != [] && Grows(segs, more) && 0 < r.count <= |segs| && PlaceInv(segs, r)
    ensures PlaceInv(more, r)
  {
    hide AllRecords, Views, Start, InReach, GoodHint;
    match r.place
    case Seeking(i, hint) => GoodHintGrows(segs[i], more[i], hint, Max(r.offset, segs[i].base));
    case Scanning(i, done, _, floor) =>
      StartOfPrefix(segs[i].records, more[i].records, done);
      if i == r.count - 1 {
        InReachGrows(segs[i], more[i], CommittedInLast(segs, r), floor);
      }
    case _ =>
  }

  /** A snapshot taken under the lock: nothing is in flight, so all that is held is committed. */
  lemma SnapshotKeeps(w: Writers, offset: int)
    requires WritersInv(w) && w.lock == None
    ensures ReaderInv(w.segs, TakeSnapshot(w.segs, offset))
    ensures TakeSnapshot(w.segs, offset).offset == offset && TakeSnapshot(w.segs, offset).yielded == []
    ensures TakeSnapshot(w.segs, offset).committed == if offset < w.segs[0].base then 0 else |w.before| + |w.acked|
  {
    hide SegsInv, Complete, Linked, Sealed, AllRecords, Views, View, FloorSegment, Stored, Readable, CountedEntries, EncodeAll, AllInv;
    SegsComplete(w.segs);
    if offset >= w.segs[0].base {
      var views, n := Views(w.segs), |w.segs| - 1;
      ViewsInv(w.segs);
      ViewAt(w.segs);
      FloorSegmentBounds(views, offset);
      ChainStored(views);
      CompleteReadable(w.segs[n]);
      assert w.segs[n].records[..|w.segs[n].records|] == w.segs[n].records;
    }
  }

  lemma ViewAt(segs: seq<Seg>)
    ensures |Views(segs)| == |segs|
    ensures forall i :: 0 <= i < |segs| ==> Views(segs)[i].base == segs[i].base && Views(segs)[i].records == segs[i].records
  {
    hide Total;
  }

  // -------------------------------------------------------- the whole system

  datatype World = World(writers: Writers, readers: map<nat, Reader>)

  datatype Step =
    | Write(step: Appenders.Step)
    | Begin(id: nat, offset: int)
    | Read(id: nat, read: ReadStep)

  predicate Enabled(w: World, step: Step) {
    match step
    case Write(s) => Appenders.Enabled(w.writers, s)
    case Begin(id, _) => id !in w.readers && w.writers.lock == None && w.writers.segs != []
    case Read(id, s) => id in w.readers && CanRead(w.writers.segs, w.readers[id], s)
  }

  function Next(w: World, step: Step): World
    requires Enabled(w, step)
  {
    match step
    case Write(s) => w.(writers := Appenders.Next(w.writers, s))
    case Begin(id, offset) => w.(readers := w.readers[id := TakeSnapshot(w.writers.segs, offset)])
    case Read(id, s) => w.(readers := w.readers[id := NextRead(w.writers.segs, w.readers[id], s)])
  }

  ghost predicate WorldInv(w: World) {
    && WritersInv(w.writers)
    && forall id :: id in w.readers ==> ReaderInv(w.writers.segs, w.readers[id])
  }

  lemma StepKeeps(w: World, step: Step)
    requires WorldInv(w) && Enabled(w, step)
    ensures WorldInv(Next(w, step))
  {
    hide WritersInv, ReaderInv, Appenders.Enabled, Appenders.Next, Grows, NextRead, TakeSnapshot, CanRead;
    match step
    case Write(s) =>
      NotEmpty(w.writers);
      Appenders.StepKeeps(w.writers, s);
      forall id | id in w.readers
        ensures ReaderInv(Next(w, step).writers.segs, w.readers[id])
      {
        WritersKeep(w.writers.segs, Next(w, step).writers.segs, w.readers[id]);
      }
    case Begin(_, offset) => SnapshotKeeps(w.writers, offset);
    case Read(id, s) =>
      WritersReadable(w.writers);
      ReadKeeps(w.writers.segs, w.readers[id], s);
  }

  lemma NotEmpty(w: Writers)
    requires WritersInv(w)
    ensures w.segs != []
  {
    hide Complete, Linked, Stored;
  }

  ghost predicate Runs(w: World, steps: seq<Step>, v: World)
    decreases steps
  {
    if steps == [] then w == v else Enabled(w, steps[0]) && Runs(Next(w, steps[0]), steps[1..], v)
  }

  lemma {:induction false} RunKeeps(w: World, steps: seq<Step>, v: World)
    requires WorldInv(w) && Runs(w, steps, v)
    ensures WorldInv(v)
    decreases steps
  {
    hide WorldInv, Enabled, Next;
    if steps == [] {
    } else {
      StepKeeps(w, steps[0]);
      RunKeeps(Next(w, steps[0]), steps[1..], v);
    }
  }

  /**
   Reads beside appends. Whatever appenders and other readers do in between, a
   reader never raises; what it has yielded is a contiguous run of the log from
   the offset it asked for; and once it has finished, that run includes every
   record acknowledged before its snapshot.
   */
  lemma ReadersSeeARun(start: World, steps: seq<Step>, w: World, id: nat)
    requires Appenders.Initial(start.writers) && start.readers == map[]
    requires Runs(start, steps, w) && id in w.readers
    ensures w.writers.segs != []
    ensures var r := w.readers[id];
            && r.place != Raised
            && (r.place.Refused? <==> r.offset < w.writers.segs[0].base)
            && Numbered(r.yielded, r.offset)
            && SliceAt(Held(w.writers.segs), r.offset, r.yielded)
            && (r.place.Finished? ==> r.offset + |r.yielded| >= w.writers.segs[0].base + r.committed)
  {
    hide WritersInv, Held, InReach, GoodHint, AllRecords, Views, View, Total, CommittedInLast;
    InitialInv(start.writers);
    RunKeeps(start, steps, w);
    NotEmpty(w.writers);
    var r := w.readers[id];
    assert ReaderInv(w.writers.segs, r);
    if r.yielded != [] {
      HeldNumbered(w.writers);
      SliceNumbered(Held(w.writers.segs), r.offset, r.yielded);
    }
  }

  lemma HeldNumbered(w: Writers)
    requires WritersInv(w)
    ensures w.segs != [] && Numbered(Held(w.segs).records, Held(w.segs).first)
  {
    hide AllRecords, SegsInv, Views;
    NotEmpty(w);
    ViewsNumbered(w.segs);
  }

  lemma SliceNumbered(c: Content, offset: int, rs: seq<Record>)
    requires Numbered(c.records, c.first) && SliceAt(c, offset, rs)
    ensures Numbered(rs, offset)
  {
    forall k | 0 <= k < |rs|
      ensures rs[k].offset == offset + k
    {
      assert rs[k] == c.records[offset - c.first + k];
    }
  }

  // ------------------------------------------------------------- termination

  /** More than the steps a reader can take in segments i up to count. */
  function StepsFrom(segs: seq<Seg>, i: nat, count: nat): nat
    decreases count - i
  {
    if i < count && i < |segs| then |segs[i].bytes| + 4 + StepsFrom(segs, i + 1, count) else 0
  }

  /** How many of its own steps a reader may still take if the files grow no further. */
  function StepsLeft(segs: seq<Seg>, r: Reader): nat {
    match r.place
    case Between(i) => StepsFrom(segs, i, r.count)
    case Seeking(i, _) => if i < |segs| then |segs[i].bytes| + 3 + StepsFrom(segs, i + 1, r.count) else 0
    case Scanning(i, _, position, _) =>
      if i < |segs| && position <= |segs[i].bytes| then |segs[i].bytes| - position + 2 + StepsFrom(segs, i + 1, r.count) else 0
    case _ => 0
  }

  lemma ReadShortens(segs: seq<Seg>, r: Reader, step: ReadStep)
    requires ReaderInv(segs, r) && CanRead(segs, r, step)
    ensures StepsLeft(segs, NextRead(segs, r, step)) < StepsLeft(segs, r)
  {
    hide SliceAt, InReach, GoodHint, Held, ReadOne, Start, Lookup, Verified;
  }

  predicate Stopped(r: Reader) {
    r.place.Finished? || r.place.Refused? || r.place.Raised?
  }

  /** A run of one reader's own steps over files that stay as they are. */
  ghost predicate Reads(segs: seq<Seg>, r: Reader, steps: seq<ReadStep>, q: Reader)
    decreases steps
  {
    if steps == [] then r == q
    else CanRead(segs, r, steps[0]) && Reads(segs, NextRead(segs, r, steps[0]), steps[1..], q)
  }

  lemma {:induction false} ReadsBounded(segs: seq<Seg>, r: Reader, steps: seq<ReadStep>, q: Reader)
    requires ReadableAll(segs) && ReaderInv(segs, r) && Reads(segs, r, steps, q)
    ensures |steps| + StepsLeft(segs, q) <= StepsLeft(segs, r)
    ensures ReaderInv(segs, q)
    decreases steps
  {
    hide ReadableAll, ReaderInv, NextRead, CanRead, StepsLeft;
    if steps == [] {
    } else {
      ReadKeeps(segs, r, steps[0]);
      ReadShortens(segs, r, steps[0]);
      ReadsBounded(segs, NextRead(segs, r, steps[0]), steps[1..], q);
    }
  }

  lemma StepOrStop(segs: seq<Seg>, r: Reader)
    requires ReaderInv(segs, r) && !Stopped(r)
    ensures exists step :: CanRead(segs, r, step)
  {
    hide SliceAt, InReach, GoodHint, Held, Start, CommittedInLast;
    var step := match r.place
      case Between(_) => LookUp
      case Seeking(_, _) => OpenFile
      case Scanning(i, _, _, _) => ReadNext(|segs[i].bytes|)
      case _ => LookUp;
    assert CanRead(segs, r, step);
  }

  /**
   Readers end. In any reachable state, from which files grow no further, a
   reader takes at most StepsLeft of its own steps, and stops only when it has
   finished or was refused.
   */
  lemma ReadersEnd(start: World, steps: seq<Step>, w: World, id: nat, own: seq<ReadStep>, q: Reader)
    requires Appenders.Initial(start.writers) && start.readers == map[]
    requires Runs(start, steps, w) && id in w.readers
    requires Reads(w.writers.segs, w.readers[id], own, q)
    ensures |own| <= StepsLeft(w.writers.segs, w.readers[id])
    ensures q.place.Finished? || q.place.Refused? || exists step :: CanRead(w.writers.segs, q, step)
  {
    hide WritersInv, ReadableAll, ReaderInv, StepsLeft, CanRead, Reads, Runs;
    InitialInv(start.writers);
    RunKeeps(start, steps, w);
    WritersReadable(w.writers);
    ReadsBounded(w.writers.segs, w.readers[id], own, q);
    NeverRaised(w.writers.segs, q);
    if !Stopped(q) {
      StepOrStop(w.writers.segs, q);
    }
  }

  lemma NeverRaised(segs: seq<Seg>, r: Reader)
    requires ReaderInv(segs, r)
    ensures r.place != Raised
  {
    hide SliceAt, InReach, Held;
  }
}
