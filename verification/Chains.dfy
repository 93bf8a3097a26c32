/**
 One partition as a value: a chain of segments, only the last of them writable,
 and what each operation of the log makes of it.
 */
module Chains {
  import opened Bytes
  import opened Records
  import opened Frames
  import opened Indexes
  import opened Bisect
  import opened Recovery
  import opened Reading
  import opened Segments

  datatype LogState = LogState(maxBytes: int, segs: seq<SegmentState>)

  function Tail(s: LogState): SegmentState
    requires s.segs != []
  {
    s.segs[|s.segs| - 1]
  }

  function WithTail(s: LogState, t: SegmentState): LogState
    requires s.segs != []
  {
    s.(segs := s.segs[|s.segs| - 1 := t])
  }

  function FirstOffset(s: LogState): int
    requires s.segs != []
  {
    s.segs[0].base
  }

  function LogNext(s: LogState): int
    requires s.segs != []
  {
    NextOffset(Tail(s))
  }

  /** Each segment starts at the offset where the one before it ends. */
  ghost predicate Linked(segs: seq<SegmentState>) {
    forall i {:trigger segs[i]} :: 0 < i < |segs| ==> NextOffset(Before(segs, i)) == segs[i].base
  }

  function Before(segs: seq<SegmentState>, i: int): SegmentState
    requires 0 < i <= |segs|
  {
    segs[i - 1]
  }

  ghost predicate Sealed(segs: seq<SegmentState>) {
    forall i :: 0 <= i < |segs| - 1 ==> !segs[i].open && segs[i].records != []
  }

  ghost predicate AllInv(segs: seq<SegmentState>) {
    forall i :: 0 <= i < |segs| ==> SegmentInv(segs[i])
  }

  /** No segment holds a record its index could not address, so each can be opened again. */
  ghost predicate AllIndexable(segs: seq<SegmentState>) {
    forall i :: 0 <= i < |segs| ==> Indexable(segs[i].records, segs[i].base, INTERVAL_BYTES)
  }

  ghost predicate LogInv(s: LogState) {
    && ValidLimit(s.maxBytes)
    && s.segs != []
    && AllInv(s.segs)
    && AllIndexable(s.segs)
    && Linked(s.segs)
    && Sealed(s.segs)
  }

  /** The meaning of a log: all its records, in order. */
  function AllRecords(segs: seq<SegmentState>): seq<Record> {
    if segs == [] then [] else AllRecords(segs[..|segs| - 1]) + segs[|segs| - 1].records
  }

  /** The .log files behind a chain. */
  ghost function FilesOf(segs: seq<SegmentState>): map<int, FileState>
    requires AllInv(segs)
  {
    if segs == [] then map[] else
      assert SegmentInv(segs[|segs| - 1]);
      FilesOf(segs[..|segs| - 1])[segs[|segs| - 1].base := FileOf(segs[|segs| - 1])]
  }

  // ------------------------------------------------------------- operations

  function RollLog(s: LogState): LogState
    requires s.segs != []
  {
    if Position(Tail(s)) == 0 then s
    else
      var sealed := WithTail(s, Seal(Tail(s)));
      sealed.(segs := sealed.segs + [SegmentState(LogNext(s), [], 0, true)])
  }

  function AppendLog(s: LogState, key: Option<seq<byte>>, value: Option<seq<byte>>, timestamp: int): (LogState, Result<int>)
    requires s.segs != []
  {
    var offset := LogNext(s);
    var record := Record(offset, timestamp, key, value);
    var roomy := if HasRoom(Tail(s), s.maxBytes, record) then s else RollLog(s);
    var (tail, out) := AppendTo(Tail(roomy), record);
    (WithTail(roomy, tail), match out case Ok(_) => Ok(offset) case Err(e) => Err(e))
  }

  function SyncLog(s: LogState): (LogState, Result<()>)
    requires s.segs != []
  {
    if Tail(s).open then (WithTail(s, Flush(Tail(s))), Ok(())) else (s, Err(ValueError))
  }

  function SealAll(segs: seq<SegmentState>): (sealed: seq<SegmentState>)
    ensures |sealed| == |segs|
    ensures forall i :: 0 <= i < |segs| ==> sealed[i] == Seal(segs[i])
  {
    seq(|segs|, i requires 0 <= i < |segs| => Seal(segs[i]))
  }

  function CloseLog(s: LogState): LogState {
    s.(segs := SealAll(s.segs))
  }

  // --------------------------------------------------------------- the chain

  lemma {:induction false} BasesAscend(segs: seq<SegmentState>, i: nat, j: nat)
    requires Linked(segs) && Sealed(segs) && i < j < |segs|
    ensures segs[i].base < segs[j].base <= NextOffset(segs[j])
    decreases j - i
  {
    assert Before(segs, j) == segs[j - 1];
    if i == j - 1 {
    } else {
      BasesAscend(segs, i, j - 1);
    }
  }

  lemma PrefixLinked(segs: seq<SegmentState>, n: nat)
    requires n <= |segs|
    ensures Linked(segs) ==> Linked(segs[..n])
    ensures Sealed(segs) ==> Sealed(segs[..n])
  {
    forall i | 0 < i < n
      ensures Linked(segs) ==> NextOffset(Before(segs[..n], i)) == segs[..n][i].base
    {
      assert Before(segs[..n], i) == Before(segs, i);
    }
  }

  /** The records of a chain are numbered without a gap from its first base. */
  lemma {:induction false} ChainStored(segs: seq<SegmentState>)
    requires segs != [] && Linked(segs)
    requires AllInv(segs)
    ensures Stored(AllRecords(segs), segs[0].base)
    ensures segs[0].base + |AllRecords(segs)| == NextOffset(segs[|segs| - 1])
  {
    hide Encodable, Total;
    var front, last := segs[..|segs| - 1], segs[|segs| - 1];
    if front == [] {
      assert AllRecords(segs) == [] + last.records == last.records;
    } else {
      PrefixLinked(segs, |segs| - 1);
      ChainStored(front);
      assert Before(segs, |segs| - 1) == front[|front| - 1];
    }
  }

  lemma AllRecordsSnoc(segs: seq<SegmentState>, t: SegmentState)
    ensures AllRecords(segs + [t]) == AllRecords(segs) + t.records
  {
    assert (segs + [t])[..|segs|] == segs;
  }

  lemma AllRecordsTail(s: LogState, t: SegmentState)
    requires s.segs != []
    ensures var front := s.segs[..|s.segs| - 1];
            && WithTail(s, t).segs == front + [t]
            && s.segs == front + [Tail(s)]
            && AllRecords(s.segs) == AllRecords(front) + Tail(s).records
            && AllRecords(WithTail(s, t).segs) == AllRecords(front) + t.records
  {
    var front := s.segs[..|s.segs| - 1];
    assert WithTail(s, t).segs == front + [t];
    AllRecordsSnoc(front, t);
  }

  lemma SameTail(s: LogState)
    requires s.segs != []
    ensures WithTail(s, Tail(s)) == s
  {
    assert s.segs[|s.segs| - 1 := Tail(s)] == s.segs;
  }

  // ------------------------------------------------- what every step keeps

  /** A tail with the same base, no fewer records, and its own invariant keeps the chain. */
  lemma TailKeepsChain(s: LogState, t: SegmentState)
    requires LogInv(s) && SegmentInv(t) && t.base == Tail(s).base
    requires Indexable(t.records, t.base, INTERVAL_BYTES)
    ensures LogInv(WithTail(s, t))
  {
    hide Encodable, Total, Stored, Indexable;
    var n := |s.segs| - 1;
    var w := WithTail(s, t);
    forall i | 0 < i < |w.segs|
      ensures NextOffset(Before(w.segs, i)) == w.segs[i].base
    {
      assert Before(w.segs, i) == Before(s.segs, i);
    }
  }

  lemma EmptySegmentInv(base: int)
    ensures SegmentInv(SegmentState(base, [], 0, true))
    ensures Indexable([], base, INTERVAL_BYTES)
    ensures Position(SegmentState(base, [], 0, true)) == 0
  {
  }

  /** A new, empty tail after a sealed one keeps the chain. */
  lemma NewTailKeepsChain(s: LogState)
    requires LogInv(s) && !Tail(s).open && Tail(s).records != []
    ensures LogInv(s.(segs := s.segs + [SegmentState(LogNext(s), [], 0, true)]))
  {
    hide Encodable, Stored, Total, SegmentInv, Indexable;
    var segs := s.segs + [SegmentState(LogNext(s), [], 0, true)];
    EmptySegmentInv(LogNext(s));
    forall i | 0 < i < |segs|
      ensures NextOffset(Before(segs, i)) == segs[i].base
    {
      if i < |s.segs| {
        assert Before(segs, i) == Before(s.segs, i);
      }
    }
  }

  lemma RollKeepsChain(s: LogState)
    requires LogInv(s)
    ensures LogInv(RollLog(s))
    ensures AllRecords(RollLog(s).segs) == AllRecords(s.segs)
    ensures LogNext(RollLog(s)) == LogNext(s)
    ensures FirstOffset(RollLog(s)) == FirstOffset(s)
    ensures Position(Tail(RollLog(s))) == 0
    ensures |s.segs| <= |RollLog(s).segs| <= |s.segs| + 1
  {
    hide Encodable, Stored, Linked, Sealed, AllRecords, Indexable;
    if Position(Tail(s)) != 0 {
      var sealed := WithTail(s, Seal(Tail(s)));
      TailKeepsChain(s, Seal(Tail(s)));
      AllRecordsTail(s, Seal(Tail(s)));
      assert Tail(sealed).records == Tail(s).records != [];
      NewTailKeepsChain(sealed);
      AllRecordsSnoc(sealed.segs, SegmentState(LogNext(s), [], 0, true));
      assert AllRecords(sealed.segs) + [] == AllRecords(sealed.segs);
    }
  }

  lemma AppendToKeeps(s: SegmentState, r: Record)
    requires SegmentInv(s)
    ensures SegmentInv(AppendTo(s, r).0)
    ensures AppendTo(s, r).0.base == s.base
  {
    hide Encode, Extend, IndexOf;
    if AppendTo(s, r).0 != s {
      EncodableIff(r);
      EncodeSnoc(s.records, r);
    }
  }

  lemma SyncKeepsChain(s: LogState)
    requires LogInv(s)
    ensures LogInv(SyncLog(s).0)
    ensures AllRecords(SyncLog(s).0.segs) == AllRecords(s.segs)
    ensures FirstOffset(SyncLog(s).0) == FirstOffset(s)
  {
    hide Encodable, Total, Stored, Indexable;
    TailKeepsChain(s, Flush(Tail(s)));
    AllRecordsTail(s, Flush(Tail(s)));
  }

  lemma {:induction false} SealAllRecords(segs: seq<SegmentState>)
    ensures AllRecords(SealAll(segs)) == AllRecords(segs)
  {
    if segs == [] {
    } else {
      SealAllRecords(segs[..|segs| - 1]);
      assert SealAll(segs)[..|segs| - 1] == SealAll(segs[..|segs| - 1]);
    }
  }

  lemma SealAllKeeps(segs: seq<SegmentState>)
    requires Linked(segs) && AllInv(segs)
    ensures Linked(SealAll(segs)) && AllInv(SealAll(segs))
    ensures Sealed(segs) ==> Sealed(SealAll(segs))
  {
    hide Encodable, Total, Stored;
    forall i | 0 < i < |segs|
      ensures NextOffset(Before(SealAll(segs), i)) == SealAll(segs)[i].base
    {
      assert Before(SealAll(segs), i) == Seal(Before(segs, i));
    }
  }

  lemma CloseSealsTail(s: LogState)
    requires LogInv(s)
    ensures CloseLog(s) == WithTail(s, Seal(Tail(s)))
  {
    hide Stored, Total, AllIndexable, AllInv, Linked;
    assert CloseLog(s).segs == WithTail(s, Seal(Tail(s))).segs;
  }

  lemma CloseKeepsChain(s: LogState)
    requires LogInv(s)
    ensures LogInv(CloseLog(s))
    ensures AllRecords(CloseLog(s).segs) == AllRecords(s.segs)
    ensures FirstOffset(CloseLog(s)) == FirstOffset(s)
  {
    hide Indexable;
    SealAllRecords(s.segs);
    SealAllKeeps(s.segs);
  }

  // ------------------------------------------------------------ roll arithmetic

  /** Within the limit, or holding at most one record. */
  predicate Tight(segs: seq<SegmentState>, maxBytes: int) {
    forall i :: 0 <= i < |segs| ==> Position(segs[i]) <= maxBytes || |segs[i].records| <= 1
  }

  /** Rolling before a record that does not fit keeps every segment tight. */
  lemma AppendKeepsTight(s: LogState, key: Option<seq<byte>>, value: Option<seq<byte>>, timestamp: int)
    requires LogInv(s) && Tight(s.segs, s.maxBytes)
    ensures Tight(AppendLog(s, key, value, timestamp).0.segs, s.maxBytes)
  {
    hide Encode, Extend, IndexOf, Encodable, Stored, Size, Total;
    var record := Record(LogNext(s), timestamp, key, value);
    RollKeepsChain(s);
    var roomy := if HasRoom(Tail(s), s.maxBytes, record) then s else RollLog(s);
    var t := AppendTo(Tail(roomy), record).0;
    assert Tight(roomy.segs, s.maxBytes);
    if t != Tail(roomy) {
      EncodeSnocTotal(Tail(roomy).records, record);
      if Position(Tail(roomy)) == 0 {
        ZeroTotal(Tail(roomy).records);
      }
    }
  }

  lemma EncodeSnocTotal(rs: seq<Record>, r: Record)
    ensures Total(rs + [r]) == Total(rs) + Size(r)
  {
    assert (rs + [r])[..|rs|] == rs;
  }

  lemma ZeroTotal(rs: seq<Record>)
    requires Total(rs) == 0
    ensures rs == []
  {
    CountFits(rs);
  }

  /**
   In a tight segment every record starts at or below 2^32 - 32, at a relative
   offset below 2^27, so no guard of the index can trip.
   */
  lemma TightFits(t: SegmentState, maxBytes: int, j: nat)
    requires SegmentInv(t) && ValidLimit(maxBytes)
    requires Position(t) <= maxBytes || |t.records| <= 1
    requires j < |t.records|
    ensures Start(t.records, j) <= 0x1_0000_0000 - 32
    ensures j < 0x800_0000
    ensures Addressable(t.records)
    ensures Indexable(t.records, t.base, INTERVAL_BYTES)
  {
    hide Encodable, Total, Addressable, Indexable, Size;
    StartOfFirst(t.records);
    StartGap(t.records, 0, j);
    StartGap(t.records, j, |t.records|);
    assert t.records[..|t.records|] == t.records;
    TightAddressable(t, maxBytes);
    AddressableIsIndexable(t.records, t.base, INTERVAL_BYTES);
  }

  /**
   In a tight segment its index leads to a record less than 4096 bytes, and so
   fewer than 128 records, before any one sought; and it has no more than one
   entry for each 4096 bytes.
   */
  lemma SeekIsShort(t: SegmentState, maxBytes: int, j: nat)
    requires SegmentInv(t) && ValidLimit(maxBytes)
    requires Position(t) <= maxBytes || |t.records| <= 1
    requires j < |t.records|
    ensures var (promised, position) := Lookup(IndexOf(t.records, t.base, INTERVAL_BYTES), t.base, t.base + j);
            var i := promised - t.base;
            && 0 <= i <= j && position == Start(t.records, i)
            && Start(t.records, j) - position < 4096 && j - i < 128
    ensures var es := IndexOf(t.records, t.base, INTERVAL_BYTES); 4096 * |es| <= LastPosition(es)
  {
    hide Encodable, Total, Addressable, Indexable, Size, IndexOf, Lookup;
    TightFits(t, maxBytes, j);
    SeekCost(t.records, t.base, INTERVAL_BYTES, j);
    EntriesAreFew(t.records, t.base, INTERVAL_BYTES);
  }

  lemma TightAddressable(t: SegmentState, maxBytes: int)
    requires ValidLimit(maxBytes)
    requires Position(t) <= maxBytes || |t.records| <= 1
    ensures Addressable(t.records)
  {
  }

  /** An append where there is room trips no guard of the index. */
  lemma RoomyAppendTo(t: SegmentState, maxBytes: int, record: Record)
    requires SegmentInv(t) && ValidLimit(maxBytes) && record.offset == NextOffset(t)
    requires Indexable(t.records, t.base, INTERVAL_BYTES)
    requires HasRoom(t, maxBytes, record)
    ensures var (after, out) := AppendTo(t, record);
            && (out.Ok? <==> Encodable(record) && t.open)
            && (out.Err? ==> after == t)
            && (out.Ok? ==> after == t.(records := t.records + [record]))
            && SegmentInv(after) && Indexable(after.records, t.base, INTERVAL_BYTES)
  {
    hide Encode, Extend, IndexOf, Stored, Size, Total, Indexable;
    var after := AppendTo(t, record).0;
    EncodableIff(record);
    RefusalEncodes(record);
    AppendToKeeps(t, record);
    if after != t {
      assert after.records == t.records + [record];
      EncodeSnocTotal(t.records, record);
      if Position(t) == 0 {
        ZeroTotal(t.records);
      }
      assert after.records[..|t.records|] == t.records;
      TightFits(after, maxBytes, |t.records|);
      IndexOfSnoc(after.records, |t.records|, t.base, INTERVAL_BYTES);
    }
  }

  /**
   What an append does. It fails only where `encode` or a closed tail refuses
   the record, and then no record changes, even if it has already rolled. If it
   succeeds the log is longer by exactly that record, under the offset returned.
   */
  lemma AppendOutcome(s: LogState, key: Option<seq<byte>>, value: Option<seq<byte>>, timestamp: int)
    requires LogInv(s)
    ensures var (after, out) := AppendLog(s, key, value, timestamp);
            var record := Record(LogNext(s), timestamp, key, value);
            && LogInv(after)
            && FirstOffset(after) == FirstOffset(s)
            && |s.segs| <= |after.segs| <= |s.segs| + 1
            && (out.Ok? <==> Encodable(record) && (Tail(s).open || !HasRoom(Tail(s), s.maxBytes, record)))
            && (out.Ok? ==> out.value == LogNext(s) && AllRecords(after.segs) == AllRecords(s.segs) + [record])
            && (out.Err? ==> after == s || after == RollLog(s))
            && (out.Err? ==> AllRecords(after.segs) == AllRecords(s.segs) && LogNext(after) == LogNext(s))
  {
    hide Encode, Extend, IndexOf, Stored, Size, Total, Linked, Sealed, AllRecords, Encodable, Indexable;
    var record := Record(LogNext(s), timestamp, key, value);
    RollKeepsChain(s);
    var roomy := if HasRoom(Tail(s), s.maxBytes, record) then s else RollLog(s);
    RoomyAppendTo(Tail(roomy), s.maxBytes, record);
    var t := AppendTo(Tail(roomy), record).0;
    TailKeepsChain(roomy, t);
    AllRecordsTail(roomy, t);
    assert roomy.segs[|roomy.segs| - 1 := Tail(roomy)] == roomy.segs;
    var front := AllRecords(roomy.segs[..|roomy.segs| - 1]);
    assert front + (Tail(roomy).records + [record]) == front + Tail(roomy).records + [record];
  }

  /** The bytes a record takes in a file, whether or not it can be encoded. */
  lemma SizeInFile(r: Record)
    ensures Size(r) == 32 + (if r.key.Some? then |r.key.value| else 0) + (if r.value.Some? then |r.value.value| else 0)
    ensures Encodable(r) ==> |Frame(r)| == Size(r)
  {
    hide Encodable, Frame;
    if Encodable(r) {
      FrameSize(r);
    }
  }

  /**
   Which file an append goes to, in bytes of files. It adds a segment if and only
   if the tail's file is not empty and the record would take it past the limit;
   the record is then alone in a new file, after a sealed one. Otherwise it goes
   to the end of the tail, or the append raises there if the tail is closed.
   */
  lemma AppendRolls(s: LogState, key: Option<seq<byte>>, value: Option<seq<byte>>, timestamp: int)
    requires LogInv(s)
    ensures s.segs != [] && AllEncodable(Tail(s).records)
    ensures var file := EncodeAll(Tail(s).records);
            var size := 32 + (if key.Some? then |key.value| else 0) + (if value.Some? then |value.value| else 0);
            var rolls := file != [] && |file| + size > s.maxBytes;
            var (after, out) := AppendLog(s, key, value, timestamp);
            var r := Record(LogNext(s), timestamp, key, value);
            var last := |s.segs| - 1;
            && |after.segs| == |s.segs| + (if rolls then 1 else 0)
            && after.segs[..last] == s.segs[..last]
            && (Encodable(r) ==> |Frame(r)| == size)
            && (Encodable(r) && rolls ==>
                  && out == Ok(LogNext(s))
                  && after.segs[last] == Seal(Tail(s))
                  && after.segs[last + 1] == SegmentState(LogNext(s), [r], 0, true))
            && (Encodable(r) && !rolls && Tail(s).open ==>
                  && out == Ok(LogNext(s))
                  && after.segs[last] == Tail(s).(records := Tail(s).records + [r]))
            && (Encodable(r) && !rolls && !Tail(s).open ==> out == Err(ValueError) && after.segs == s.segs)
            && (!Encodable(r) ==> Encode(r).Err? && out == Err(Encode(r).error) && after == if rolls then RollLog(s) else s)
  {
    hide Encode, Refusal, EncodeAll, Extend, IndexOf, Total, Linked, Sealed, Encodable, Indexable, Size, Frame, AllInv, AllIndexable;
    var r := Record(LogNext(s), timestamp, key, value);
    TailStored(s);
    EncodeAllLength(Tail(s).records);
    SizeInFile(r);
    RollKeepsChain(s);
    TailStored(RollLog(s));
    var roomy := if HasRoom(Tail(s), s.maxBytes, r) then s else RollLog(s);
    RoomyAppendTo(Tail(roomy), s.maxBytes, r);
    RefusalEncodes(r);
    EncodableIff(r);
    SameTail(roomy);
  }

  lemma TailStored(s: LogState)
    requires LogInv(s)
    ensures s.segs != [] && SegmentInv(Tail(s)) && AllEncodable(Tail(s).records)
    ensures Indexable(Tail(s).records, Tail(s).base, INTERVAL_BYTES)
  {
    hide Encodable, Total, Indexable, Linked, Sealed;
  }

  /** A closed log still takes an append that needs a roll: one full segment, closed, then the next record. */
  lemma ClosedLogAppends()
    ensures var s := LogState(1, [SegmentState(0, [], 0, true)]);
            var one := AppendLog(s, None, None, 0).0;
            && LogInv(s) && one.segs != []
            && AppendLog(s, None, None, 0).1 == Ok(0)
            && !Tail(CloseLog(one)).open
            && AppendLog(CloseLog(one), None, None, 0).1 == Ok(1)
  {
    hide AllRecords, Linked, Sealed, AllInv, AllIndexable, AppendTo, AppendLog, Total;
    var s := LogState(1, [SegmentState(0, [], 0, true)]);
    var one, r := AppendLog(s, None, None, 0).0, Record(0, 0, None, None);
    OneSegmentInv(s);
    AppendOutcome(s, None, None, 0);
    FirstAppend();
    OneTotal(r);
    CloseKeepsChain(one);
    AppendOutcome(CloseLog(one), None, None, 0);
  }

  lemma FirstAppend()
    ensures AppendLog(LogState(1, [SegmentState(0, [], 0, true)]), None, None, 0).0
         == LogState(1, [SegmentState(0, [Record(0, 0, None, None)], 0, true)])
  {
    hide IndexOf, Extend, Encode, AppendTo;
    var t, r := SegmentState(0, [], 0, true), Record(0, 0, None, None);
    EmptySegmentInv(0);
    RoomyAppendTo(t, 1, r);
    assert [] + [r] == [r];
    assert AppendTo(t, r).0 == SegmentState(0, [r], 0, true);
  }

  lemma OneTotal(r: Record)
    ensures Total([r]) == Size(r)
  {
    assert [r][..0] == [];
  }

  lemma OneSegmentInv(s: LogState)
    requires ValidLimit(s.maxBytes) && |s.segs| == 1 && s.segs[0] == SegmentState(0, [], 0, true)
    ensures LogInv(s)
  {
    EmptySegmentInv(0);
  }

  // ----------------------------------------------------------------- reading

  function Bases(segs: seq<SegmentState>): (bases: seq<int>)
    ensures |bases| == |segs|
    ensures forall i :: 0 <= i < |segs| ==> bases[i] == segs[i].base
  {
    seq(|segs|, i requires 0 <= i < |segs| => segs[i].base)
  }

  /** The segment that can contain an offset: the last whose base is at most it. */
  function FloorSegment(segs: seq<SegmentState>, offset: int): int {
    BisectRight(Bases(segs), offset) - 1
  }

  function Max(a: int, b: int): int {
    if a > b then a else b
  }

  /** Reads from segment i to the end of the chain, each segment from its own base on. */
  function ReadChain(segs: seq<SegmentState>, i: nat, offset: int): seq<Record>
    requires i <= |segs|
    decreases |segs| - i
  {
    if i == |segs| then [] else
      Suffix(segs[i].records, Max(offset, segs[i].base) - segs[i].base) + ReadChain(segs, i + 1, offset)
  }

  lemma {:induction false} ChainSplit(segs: seq<SegmentState>, i: nat, offset: int)
    requires i <= |segs|
    requires forall j :: i <= j < |segs| ==> offset <= segs[j].base
    ensures AllRecords(segs) == AllRecords(segs[..i]) + ReadChain(segs, i, offset)
    decreases |segs| - i
  {
    if i == |segs| {
      assert segs[..i] == segs;
    } else {
      hide AllRecords, ReadChain;
      ChainSplit(segs, i + 1, offset);
      ReadChainStep(segs, i, offset);
      PrefixRecords(segs, i);
      Regroup(AllRecords(segs[..i]), segs[i].records, ReadChain(segs, i + 1, offset));
    }
  }

  /** What a segment contributes does not depend on which of its base and the offset is the greater. */
  lemma ReadChainStep(segs: seq<SegmentState>, i: nat, offset: int)
    requires i < |segs|
    ensures ReadChain(segs, i, offset) == Suffix(segs[i].records, offset - segs[i].base) + ReadChain(segs, i + 1, offset)
  {
    ReadChainAt(segs, i, offset);
    hide ReadChain;
    var t := segs[i];
    if offset <= t.base {
      assert Suffix(t.records, Max(offset, t.base) - t.base) == t.records == Suffix(t.records, offset - t.base);
    } else {
      assert Max(offset, t.base) == offset;
    }
  }

  lemma ReadChainAt(segs: seq<SegmentState>, i: nat, offset: int)
    requires i < |segs|
    ensures ReadChain(segs, i, offset)
         == Suffix(segs[i].records, Max(offset, segs[i].base) - segs[i].base) + ReadChain(segs, i + 1, offset)
  {
  }

  lemma PrefixRecords(segs: seq<SegmentState>, i: nat)
    requires i < |segs|
    ensures AllRecords(segs[..i + 1]) == AllRecords(segs[..i]) + segs[i].records
  {
    assert segs[..i + 1] == segs[..i] + [segs[i]];
    AllRecordsSnoc(segs[..i], segs[i]);
  }

  lemma Regroup(a: seq<Record>, b: seq<Record>, c: seq<Record>)
    ensures a + (b + c) == (a + b) + c
  {
  }

  lemma BasesSorted(segs: seq<SegmentState>)
    requires Linked(segs) && Sealed(segs)
    ensures Sorted(Bases(segs))
    ensures forall i, j :: 0 <= i < j < |segs| ==> segs[i].base < segs[j].base
  {
    forall i, j | 0 <= i < j < |segs|
      ensures segs[i].base < segs[j].base
    {
      BasesAscend(segs, i, j);
    }
  }

  /**
   The two-level floor search: reading from the segment found by bisection
   yields exactly the records from the offset on, across every boundary.
   */
  lemma FloorSearch(s: LogState, offset: int)
    requires LogInv(s) && offset >= FirstOffset(s)
    ensures var i := FloorSegment(s.segs, offset);
            && 0 <= i < |s.segs| && s.segs[i].base <= offset
            && ReadChain(s.segs, i, offset) == Suffix(AllRecords(s.segs), offset - FirstOffset(s))
  {
    hide Linked, Sealed, AllInv, AllIndexable, FloorSegment, ReadChain;
    FloorSegmentBounds(s.segs, offset);
    ReadFromFloor(s.segs, FloorSegment(s.segs, offset), offset);
  }

  lemma FloorSegmentBounds(segs: seq<SegmentState>, offset: int)
    requires segs != [] && Linked(segs) && Sealed(segs) && offset >= segs[0].base
    ensures var i := FloorSegment(segs, offset);
            && 0 <= i < |segs| && segs[i].base <= offset
            && forall j :: i < j < |segs| ==> offset < segs[j].base
  {
    hide BisectRight, Linked, Sealed;
    BasesSorted(segs);
    Floor(Bases(segs), offset);
    assert Bases(segs)[0] == segs[0].base;
  }

  lemma ReadFromFloor(segs: seq<SegmentState>, i: nat, offset: int)
    requires segs != [] && Linked(segs) && AllInv(segs)
    requires i < |segs| && segs[i].base <= offset
    requires forall j :: i < j < |segs| ==> offset < segs[j].base
    ensures ReadChain(segs, i, offset) == Suffix(AllRecords(segs), offset - segs[0].base)
  {
    hide AllInv, AllRecords, Linked, ReadChain, Suffix;
    ChainSplit(segs, i + 1, offset);
    ReadChainStep(segs, i, offset);
    PrefixRecords(segs, i);
    PrefixCount(segs, i);
    if i + 1 < |segs| {
      NextBase(segs, i);
    } else {
      NothingLeft(segs, offset);
    }
    SuffixOfParts(AllRecords(segs[..i]), segs[i].records, ReadChain(segs, i + 1, offset), offset - segs[0].base);
  }

  lemma NothingLeft(segs: seq<SegmentState>, offset: int)
    ensures ReadChain(segs, |segs|, offset) == []
  {
  }

  lemma NextBase(segs: seq<SegmentState>, i: nat)
    requires Linked(segs) && i + 1 < |segs|
    ensures segs[i + 1].base == NextOffset(segs[i])
  {
    assert Before(segs, i + 1) == segs[i];
  }

  lemma PrefixCount(segs: seq<SegmentState>, i: nat)
    requires i < |segs| && Linked(segs) && AllInv(segs)
    ensures segs[0].base + |AllRecords(segs[..i])| == segs[i].base
  {
    hide Stored, Total;
    if i > 0 {
      PrefixLinked(segs, i);
      ChainStored(segs[..i]);
      assert Before(segs, i) == segs[..i][i - 1];
    }
  }

  lemma SuffixOfParts(a: seq<Record>, b: seq<Record>, c: seq<Record>, n: int)
    requires |a| <= n && (n <= |a| + |b| || c == [])
    ensures Suffix(a + b + c, n) == Suffix(b, n - |a|) + c
  {
  }
}
