/**
 Every run of appends, rolls, syncs, closes and crashes, against one abstract
 sequence of records of which a prefix is durable.
 */
module Crashes {
  import opened Bytes
  import opened Records
  import opened Frames
  import opened Indexes
  import opened Recovery
  import opened Segments
  import opened Chains
  import opened Opening

  datatype Step =
    | Append(key: Option<seq<byte>>, value: Option<seq<byte>>, timestamp: int)
    | Roll
    | Sync
    | Close
    | Crash(cut: nat, maxBytes: int)   // lose the tail past `cut`, then open with this limit

  /** A crash may cut the tail anywhere between its fsynced and its written length. */
  predicate Enabled(s: LogState, step: Step)
    requires s.segs != []
  {
    step.Crash? ==> Tail(s).synced <= step.cut <= Position(Tail(s)) && ValidLimit(step.maxBytes)
  }

  ghost function Next(s: LogState, step: Step): LogState
    requires LogInv(s) && Enabled(s, step)
  {
    match step
    case Append(key, value, timestamp) => AppendLog(s, key, value, timestamp).0
    case Roll => RollLog(s)
    case Sync => SyncLog(s).0
    case Close => CloseLog(s)
    case Crash(cut, maxBytes) =>
      match OpenLog(CrashFiles(s, cut), Bases(s.segs), maxBytes)
      case Ok(reopened) => reopened
      case Err(_) => s
  }

  /** How many records no crash can take: all of the sealed segments, and the fsynced ones of the tail. */
  function DurableCount(s: LogState): nat
    requires s.segs != []
  {
    |AllRecords(s.segs[..|s.segs| - 1])| + Whole(Tail(s).records, Tail(s).synced)
  }

  datatype Abstract = Abstract(records: seq<Record>, durable: nat)

  function Meaning(s: LogState): Abstract
    requires s.segs != []
  {
    Abstract(AllRecords(s.segs), DurableCount(s))
  }

  /** The abstract log: appends extend it, syncs make it durable, crashes cut it, never below the durable part. */
  ghost predicate AbstractStep(first: int, a: Abstract, step: Step, b: Abstract) {
    && a.durable <= b.durable <= |b.records|
    && match step
       case Append(key, value, timestamp) =>
         b.records == a.records || b.records == a.records + [Record(first + |a.records|, timestamp, key, value)]
       case Roll => b.records == a.records
       case Sync => b.records == a.records && b.durable == |b.records|
       case Close => b.records == a.records && b.durable == |b.records|
       case Crash(_, _) => b.records <= a.records
  }

  lemma DurableBounded(s: LogState)
    requires s.segs != []
    ensures DurableCount(s) <= |AllRecords(s.segs)|
  {
    AllRecordsTail(s, Tail(s));
  }

  lemma WholeGrows(rs: seq<Record>, cut: nat, more: nat)
    requires cut <= more
    ensures Whole(rs, cut) <= Whole(rs, more)
  {
    hide Total, Whole;
    WholeBounds(rs, cut);
    WholeBounds(rs, more);
  }

  lemma WholeOfLonger(rs: seq<Record>, r: Record, cut: nat)
    ensures Whole(rs, cut) <= Whole(rs + [r], cut)
  {
    hide Total, Whole;
    WholeBounds(rs, cut);
    WholeBounds(rs + [r], cut);
    assert (rs + [r])[..Whole(rs, cut)] == rs[..Whole(rs, cut)];
    assert Start(rs + [r], Whole(rs, cut)) <= cut;
  }

  /** What a crash keeps is still there for the next one to keep. */
  lemma WholeOfCut(rs: seq<Record>, synced: nat, cut: nat)
    requires synced <= cut
    ensures var n := Whole(rs, cut); Whole(rs[..n], Min(synced, Start(rs, n))) >= Whole(rs, synced)
  {
    hide Total, Whole;
    var n, d := Whole(rs, cut), Whole(rs, synced);
    WholeGrows(rs, synced, cut);
    WholeBounds(rs, synced);
    WholeBounds(rs[..n], Min(synced, Start(rs, n)));
    StartGap(rs, d, n);
    assert rs[..n][..d] == rs[..d];
    assert Start(rs[..n], d) <= Min(synced, Start(rs, n));
  }

  lemma StepAppend(s: LogState, step: Step)
    requires LogInv(s) && step.Append?
    ensures var t := Next(s, step);
            && LogInv(t) && FirstOffset(t) == FirstOffset(s)
            && AbstractStep(FirstOffset(s), Meaning(s), step, Meaning(t))
  {
    hide Encode, Extend, IndexOf, Stored, Size, Total, Linked, Sealed, AllRecords, Encodable, Indexable, Whole, AllInv, AllIndexable;
    AppendOutcome(s, step.key, step.value, step.timestamp);
    ChainNext(s);
    var record := Record(LogNext(s), step.timestamp, step.key, step.value);
    StepRoll(s);
    var roomy := if HasRoom(Tail(s), s.maxBytes, record) then s else RollLog(s);
    var t := Next(s, step);
    DurableBounded(t);
    assert t.segs[..|t.segs| - 1] == roomy.segs[..|roomy.segs| - 1];
    WholeOfLonger(Tail(roomy).records, record, Tail(roomy).synced);
  }

  lemma ChainNext(s: LogState)
    requires LogInv(s)
    ensures LogNext(s) == FirstOffset(s) + |AllRecords(s.segs)|
    ensures Stored(AllRecords(s.segs), FirstOffset(s))
  {
    hide Encodable, Total, Indexable;
    ChainStored(s.segs);
  }

  lemma StepRoll(s: LogState)
    requires LogInv(s)
    ensures var t := RollLog(s);
            && LogInv(t) && FirstOffset(t) == FirstOffset(s)
            && AbstractStep(FirstOffset(s), Meaning(s), Roll, Meaning(t))
  {
    hide Stored, Total, Linked, Sealed, Encodable, Indexable, AllInv, AllIndexable, Whole, AllRecords;
    RollKeepsChain(s);
    DurableBounded(s);
    DurableBounded(RollLog(s));
    if Position(Tail(s)) != 0 {
      var sealed := WithTail(s, Seal(Tail(s)));
      assert RollLog(s).segs[..|RollLog(s).segs| - 1] == sealed.segs;
      AllRecordsTail(s, Seal(Tail(s)));
    }
  }

  lemma StepSync(s: LogState)
    requires LogInv(s)
    ensures var t := SyncLog(s).0;
            && LogInv(t) && FirstOffset(t) == FirstOffset(s)
            && AbstractStep(FirstOffset(s), Meaning(s), Sync, Meaning(t))
  {
    hide Stored, Total, Linked, Sealed, Encodable, Indexable, AllIndexable, Whole, AllRecords;
    SyncKeepsChain(s);
    assert SegmentInv(Tail(s));
    DurableBounded(s);
    var t := SyncLog(s).0;
    AllRecordsTail(s, Flush(Tail(s)));
    assert t.segs[..|t.segs| - 1] == s.segs[..|s.segs| - 1];
    WholeOfAll(Tail(s).records);
  }

  lemma StepClose(s: LogState)
    requires LogInv(s)
    ensures var t := CloseLog(s);
            && LogInv(t) && FirstOffset(t) == FirstOffset(s)
            && AbstractStep(FirstOffset(s), Meaning(s), Close, Meaning(t))
  {
    hide Stored, Total, Linked, Sealed, Encodable, Indexable, AllIndexable, Whole, AllRecords;
    CloseKeepsChain(s);
    DurableBounded(s);
    var t := CloseLog(s);
    AllRecordsTail(t, Tail(t));
    assert SegmentInv(Tail(t));
    WholeOfAll(Tail(t).records);
  }

  lemma StepCrash(s: LogState, step: Step)
    requires LogInv(s) && step.Crash? && Enabled(s, step)
    ensures var t := Next(s, step);
            && LogInv(t) && FirstOffset(t) == FirstOffset(s)
            && AbstractStep(FirstOffset(s), Meaning(s), step, Meaning(t))
  {
    hide Stored, Total, Linked, Sealed, Encodable, Indexable, AllInv, AllIndexable, Whole, AllRecords, OpenLog, CrashFiles, CutTail;
    ReopenAfterCrash(s, step.cut, step.maxBytes);
    BasesSorted(s.segs);
    OpenLogInv(CrashFiles(s, step.cut), Bases(s.segs), step.maxBytes);
    var t := Survivor(s, step.cut, step.maxBytes);
    CutTailIs(Tail(s), step.cut);
    DurableBounded(t);
    AllRecordsTail(s, CutTail(Tail(s), step.cut));
    assert t.segs[..|t.segs| - 1] == s.segs[..|s.segs| - 1];
    WholeOfCut(Tail(s).records, Tail(s).synced, step.cut);
  }

  lemma CutTailIs(t: SegmentState, cut: nat)
    ensures CutTail(t, cut).base == t.base
    ensures CutTail(t, cut).records == t.records[..Whole(t.records, cut)]
    ensures CutTail(t, cut).synced == Min(t.synced, Start(t.records, Whole(t.records, cut)))
  {
  }

  /** Each step of the log is a step of the abstract one, and keeps every invariant of the chain. */
  lemma StepRefines(s: LogState, step: Step)
    requires LogInv(s) && Enabled(s, step)
    ensures var t := Next(s, step);
            && LogInv(t) && FirstOffset(t) == FirstOffset(s)
            && AbstractStep(FirstOffset(s), Meaning(s), step, Meaning(t))
  {
    hide LogInv, AbstractStep, AppendLog, RollLog, SyncLog, CloseLog, OpenLog, FirstOffset, Meaning;
    match step
    case Append(_, _, _) => StepAppend(s, step);
    case Roll => StepRoll(s);
    case Sync => StepSync(s);
    case Close => StepClose(s);
    case Crash(_, _) => StepCrash(s, step);
  }

  /** t is reached from s by these steps. */
  ghost predicate Reaches(s: LogState, steps: seq<Step>, t: LogState)
    decreases steps
  {
    if steps == [] then s == t
    else LogInv(s) && Enabled(s, steps[0]) && Reaches(Next(s, steps[0]), steps[1..], t)
  }

  ghost predicate AbstractReaches(first: int, a: Abstract, steps: seq<Step>, b: Abstract)
    decreases steps
  {
    if steps == [] then a == b
    else exists m :: AbstractStep(first, a, steps[0], m) && AbstractReaches(first, m, steps[1..], b)
  }

  /** Every run of the log, crashes included, is a run of the abstract log. */
  lemma {:induction false} RunRefines(s: LogState, steps: seq<Step>, t: LogState)
    requires LogInv(s) && Reaches(s, steps, t)
    ensures LogInv(t) && FirstOffset(t) == FirstOffset(s)
    ensures AbstractReaches(FirstOffset(s), Meaning(s), steps, Meaning(t))
    decreases steps
  {
    hide LogInv, AbstractStep, Next, FirstOffset, Meaning, Enabled;
    if steps == [] {
    } else {
      StepRefines(s, steps[0]);
      RunRefines(Next(s, steps[0]), steps[1..], t);
    }
  }

  /**
   Crash safety over whole runs. Whatever appends, rolls, syncs, closes and
   crashes follow, the log opens; its records are numbered without a gap from
   the same first offset; the next append continues from there; and every
   record that was durable is still there, in its place.
   */
  lemma {:induction false} DurableForever(s: LogState, steps: seq<Step>, t: LogState)
    requires LogInv(s) && Reaches(s, steps, t)
    ensures LogInv(t) && FirstOffset(t) == FirstOffset(s)
    ensures Stored(AllRecords(t.segs), FirstOffset(s))
    ensures LogNext(t) == FirstOffset(s) + |AllRecords(t.segs)|
    ensures DurableCount(s) <= DurableCount(t) <= |AllRecords(t.segs)|
    ensures DurableCount(s) <= |AllRecords(s.segs)|
    ensures AllRecords(s.segs)[..DurableCount(s)] <= AllRecords(t.segs)
    decreases steps
  {
    hide AllInv, AllIndexable, Linked, Sealed, Next, FirstOffset, Enabled, Stored, DurableCount, AllRecords, LogNext;
    DurableBounded(s);
    if steps == [] {
      ChainNext(s);
    } else {
      var m := Next(s, steps[0]);
      StepRefines(s, steps[0]);
      DurableForever(m, steps[1..], t);
      var d := DurableCount(s);
      assert AllRecords(m.segs)[..d] == AllRecords(s.segs)[..d];
      assert AllRecords(m.segs)[..d] <= AllRecords(m.segs)[..DurableCount(m)];
    }
  }

  // ------------------------------------------------ roll arithmetic over runs

  lemma CutShorter(t: SegmentState, cut: nat)
    ensures Position(CutTail(t, cut)) <= Position(t) && |CutTail(t, cut).records| <= |t.records|
  {
    hide Total, Whole;
    var n := Whole(t.records, cut);
    StartGap(t.records, n, |t.records|);
    assert t.records[..|t.records|] == t.records;
  }

  lemma StepKeepsTight(s: LogState, step: Step)
    requires LogInv(s) && Enabled(s, step) && Tight(s.segs, s.maxBytes)
    requires step.Crash? ==> step.maxBytes == s.maxBytes
    ensures Next(s, step).maxBytes == s.maxBytes
    ensures Tight(Next(s, step).segs, s.maxBytes)
    ensures |Next(s, step).segs| <= |s.segs| + 1
  {
    hide Total, Linked, Sealed, AllInv, AllIndexable, OpenLog, CrashFiles, CutTail, AppendTo, Size;
    match step
    case Append(key, value, timestamp) =>
      AppendOutcome(s, key, value, timestamp);
      AppendKeepsTight(s, key, value, timestamp);
    case Crash(cut, maxBytes) =>
      ReopenAfterCrash(s, cut, maxBytes);
      CutShorter(Tail(s), cut);
    case _ =>
  }

  /**
   In a log always opened with one limit, whatever appends, rolls, syncs, closes
   and crashes occur, every segment stays within the limit or holds at most one
   record; so every record starts at or below 2^32 - 32 at a relative offset
   below 2^27, and no guard of the index can trip.
   */
  lemma {:induction false} TightForever(s: LogState, steps: seq<Step>, t: LogState)
    requires LogInv(s) && Reaches(s, steps, t) && Tight(s.segs, s.maxBytes)
    requires forall i :: 0 <= i < |steps| && steps[i].Crash? ==> steps[i].maxBytes == s.maxBytes
    ensures LogInv(t) && t.maxBytes == s.maxBytes && Tight(t.segs, s.maxBytes)
    ensures forall i, j: nat :: 0 <= i < |t.segs| && j < |t.segs[i].records| ==>
              && Start(t.segs[i].records, j) <= 0x1_0000_0000 - 32
              && j < 0x800_0000
              && Addressable(t.segs[i].records)
    decreases steps
  {
    hide AllInv, AllIndexable, Linked, Sealed, Next, Enabled, Tight, Start, Addressable;
    if steps == [] {
      forall i, j: nat | 0 <= i < |t.segs| && j < |t.segs[i].records|
        ensures Start(t.segs[i].records, j) <= 0x1_0000_0000 - 32 && j < 0x800_0000 && Addressable(t.segs[i].records)
      {
        TightAt(t, i);
        TightFits(t.segs[i], t.maxBytes, j);
      }
    } else {
      StepRefines(s, steps[0]);
      StepKeepsTight(s, steps[0]);
      TightForever(Next(s, steps[0]), steps[1..], t);
    }
  }

  lemma TightAt(s: LogState, i: nat)
    requires LogInv(s) && Tight(s.segs, s.maxBytes) && i < |s.segs|
    ensures SegmentInv(s.segs[i]) && ValidLimit(s.maxBytes)
    ensures Position(s.segs[i]) <= s.maxBytes || |s.segs[i].records| <= 1
  {
    hide SegmentInv, Total, Linked, Sealed, Indexable;
  }

  // ---------------------------------------------------------- failed appends

  /**
   An append that fails leaves every record, every existing byte and the next
   offset as they were; at most it has added an empty file for the next tail.
   */
  lemma FailedAppend(s: LogState, key: Option<seq<byte>>, value: Option<seq<byte>>, timestamp: int)
    requires LogInv(s) && AppendLog(s, key, value, timestamp).1.Err?
    ensures var t := AppendLog(s, key, value, timestamp).0;
            && LogInv(t) && AllInv(s.segs) && AllInv(t.segs)
            && AllRecords(t.segs) == AllRecords(s.segs) && LogNext(t) == LogNext(s)
            && (forall b :: b in FilesOf(s.segs) ==>
                  b in FilesOf(t.segs) && FilesOf(t.segs)[b].bytes == FilesOf(s.segs)[b].bytes)
            && (forall b :: b in FilesOf(t.segs) && b !in FilesOf(s.segs) ==>
                  b == LogNext(s) && FilesOf(t.segs)[b] == FileState([], 0))
  {
    hide AppendLog, RollLog, FilesOf, AllRecords, AllIndexable, Linked, Sealed, LogNext, FirstOffset;
    AppendOutcome(s, key, value, timestamp);
    RollKeepsChain(s);
    RollFiles(s);
  }

  lemma RollFiles(s: LogState)
    requires LogInv(s)
    ensures LogInv(RollLog(s)) && AllInv(s.segs) && AllInv(RollLog(s).segs)
    ensures var before, after := FilesOf(s.segs), FilesOf(RollLog(s).segs);
            && (forall b :: b in before ==> b in after && after[b].bytes == before[b].bytes)
            && (forall b :: b in after && b !in before ==> b == LogNext(s) && after[b] == FileState([], 0))
  {
    hide FilesOf, AllRecords, AllIndexable, Linked, Sealed, AllInv, Total, FileOf, LogNext, RollLog, Seal, EncodeAll;
    RollKeepsChain(s);
    if Position(Tail(s)) == 0 {
      RollOfEmpty(s);
    } else {
      RolledFiles(s);
      TailOnDisk(s);
      SealedBytes(Tail(s));
    }
  }

  lemma RollOfEmpty(s: LogState)
    requires s.segs != [] && Position(Tail(s)) == 0
    ensures RollLog(s) == s
  {
  }

  lemma SealedBytes(t: SegmentState)
    requires AllEncodable(t.records)
    ensures Seal(t).base == t.base && AllEncodable(Seal(t).records) && FileOf(Seal(t)).bytes == FileOf(t).bytes
  {
    hide Encodable, EncodeAll, Total;
  }

  lemma RolledFiles(s: LogState)
    requires LogInv(s) && Position(Tail(s)) != 0
    ensures AllInv(s.segs) && AllInv(RollLog(s).segs) && AllEncodable(Seal(Tail(s)).records)
    ensures LogNext(s) !in FilesOf(s.segs)
    ensures FilesOf(RollLog(s).segs)
         == FilesOf(s.segs)[Tail(s).base := FileOf(Seal(Tail(s)))][LogNext(s) := FileState([], 0)]
  {
    hide FilesOf, AllRecords, Indexable, Stored, Total, FileOf, Linked, Sealed, EncodeAll;
    var sealed := WithTail(s, Seal(Tail(s)));
    assert SegmentInv(Tail(s));
    TailKeepsChain(s, Seal(Tail(s)));
    TailFile(s, Seal(Tail(s)));
    EmptySegmentInv(LogNext(s));
    NewTailFile(sealed, SegmentState(LogNext(s), [], 0, true));
    NextBaseIsFree(s);
    EmptyFile(LogNext(s));
  }

  lemma EmptyFile(base: int)
    ensures FileOf(SegmentState(base, [], 0, true)) == FileState([], 0)
  {
  }

  lemma TailOnDisk(s: LogState)
    requires LogInv(s)
    ensures AllInv(s.segs) && AllEncodable(Tail(s).records)
    ensures Tail(s).base in FilesOf(s.segs) && FilesOf(s.segs)[Tail(s).base] == FileOf(Tail(s))
  {
    hide Encodable, EncodeAll, Total, Indexable;
    BasesSorted(s.segs);
    FilesOfAt(s.segs);
  }
}
