/** Opening a partition from the .log files of its directory, and doing so after a crash. */
module Opening {
  import opened Bytes
  import opened Records
  import opened Frames
  import opened Indexes
  import opened Recovery
  import opened Segments
  import opened Chains

  ghost predicate Ascending(bases: seq<int>) {
    forall i, j :: 0 <= i < j < |bases| ==> bases[i] < bases[j]
  }

  function Insert(bases: seq<int>, b: int): seq<int> {
    if bases == [] || b < bases[0] then [b] + bases
    else [bases[0]] + Insert(bases[1..], b)
  }

  /** The bases named by a directory listing, in order. */
  function SortBases(names: seq<int>): seq<int> {
    if names == [] then [] else Insert(SortBases(names[1..]), names[0])
  }

  lemma {:induction false} InsertAscends(bases: seq<int>, b: int)
    requires Ascending(bases) && b !in bases
    ensures Ascending(Insert(bases, b))
    ensures forall x :: x in Insert(bases, b) <==> x == b || x in bases
  {
    if bases == [] || b < bases[0] {
    } else {
      assert bases == [bases[0]] + bases[1..];
      InsertAscends(bases[1..], b);
      var rest := Insert(bases[1..], b);
      assert bases[0] in bases;
      forall j | 0 <= j < |rest|
        ensures bases[0] < rest[j]
      {
        assert rest[j] in rest;
      }
    }
  }

  ghost predicate NoRepeats(names: seq<int>) {
    forall i, j :: 0 <= i < j < |names| ==> names[i] != names[j]
  }

  lemma {:induction false} SortBasesAscends(names: seq<int>)
    requires NoRepeats(names)
    ensures Ascending(SortBases(names))
    ensures forall x :: x in SortBases(names) <==> x in names
  {
    if names == [] {
    } else {
      assert names == [names[0]] + names[1..];
      SortBasesAscends(names[1..]);
      InsertAscends(SortBases(names[1..]), names[0]);
    }
  }

  /** A segment as it is right after its file has been recovered. */
  function OpenState(f: FileState, base: int): Result<SegmentState> {
    match Recover(f.bytes, base, INTERVAL_BYTES)
    case Err(e) => Err(e)
    case Ok(rec) => Ok(SegmentState(base, rec.records, Min(f.synced, rec.position), true))
  }

  function OpenStates(files: map<int, FileState>, bases: seq<int>): (out: Result<seq<SegmentState>>)
    ensures out.Ok? ==> |out.value| == |bases|
  {
    if bases == [] then Ok([]) else
      match OpenStates(files, bases[..|bases| - 1])
      case Err(e) => Err(e)
      case Ok(front) =>
        match OpenState(FileAt(files, bases[|bases| - 1]), bases[|bases| - 1])
        case Err(e) => Err(e)
        case Ok(last) => Ok(front + [last])
  }

  /** Seals everything but the tail. */
  function SealFront(segs: seq<SegmentState>): (sealed: seq<SegmentState>)
    ensures |sealed| == |segs|
  {
    if segs == [] then [] else SealAll(segs[..|segs| - 1]) + [segs[|segs| - 1]]
  }

  /** The log that the files with these bases, in order, open to. */
  ghost function OpenLog(files: map<int, FileState>, bases: seq<int>, maxBytes: int): Result<LogState> {
    if !ValidLimit(maxBytes) then
      Err(ValueError)
    else
      match OpenStates(files, if bases == [] then [0] else bases)
      case Err(e) => Err(e)
      case Ok(segs) => if Linked(segs) then Ok(LogState(maxBytes, SealFront(segs))) else Err(CorruptLog)
  }

  ghost predicate SoundFiles(files: map<int, FileState>) {
    forall b :: b in files ==> files[b].synced <= |files[b].bytes|
  }

  lemma OpenedSegment(f: FileState, base: int)
    requires OpenState(f, base).Ok?
    ensures var t := OpenState(f, base).value;
            && SegmentInv(t) && t.base == base && t.open
            && Indexable(t.records, base, INTERVAL_BYTES)
  {
    hide Recover, Indexable;
    RecoverSound(f.bytes, base, INTERVAL_BYTES);
  }

  lemma {:induction false} OpenedSegments(files: map<int, FileState>, bases: seq<int>)
    requires OpenStates(files, bases).Ok?
    ensures var segs := OpenStates(files, bases).value;
            && AllInv(segs) && AllIndexable(segs)
            && (forall i :: 0 <= i < |bases| ==> segs[i].base == bases[i] && segs[i].open)
            && (forall i :: 0 <= i < |bases| ==> OpenState(FileAt(files, bases[i]), bases[i]) == Ok(segs[i]))
  {
    hide OpenState, Indexable, SegmentInv;
    if bases == [] {
    } else {
      OpenedSegments(files, bases[..|bases| - 1]);
      OpenedSegment(FileAt(files, bases[|bases| - 1]), bases[|bases| - 1]);
    }
  }

  /** Opening succeeds segment by segment or not at all. */
  lemma {:induction false} OpenStatesIs(files: map<int, FileState>, segs: seq<SegmentState>)
    requires forall i :: 0 <= i < |segs| ==> OpenState(FileAt(files, segs[i].base), segs[i].base) == Ok(segs[i])
    ensures OpenStates(files, Bases(segs)) == Ok(segs)
  {
    hide OpenState;
    if segs == [] {
    } else {
      var front := segs[..|segs| - 1];
      OpenStatesIs(files, front);
      assert Bases(segs)[..|segs| - 1] == Bases(front);
      assert segs == front + [segs[|segs| - 1]];
    }
  }

  lemma {:induction false} OpenStatesFails(files: map<int, FileState>, bases: seq<int>, n: nat)
    requires n <= |bases| && OpenStates(files, bases[..n]).Err?
    ensures OpenStates(files, bases) == OpenStates(files, bases[..n])
  {
    hide OpenState;
    if n == |bases| {
      assert bases[..n] == bases;
    } else {
      assert bases[..|bases| - 1][..n] == bases[..n];
      OpenStatesFails(files, bases[..|bases| - 1], n);
    }
  }

  /** A chain of distinct, linked segments has no empty segment before its tail. */
  lemma LinkedNotEmpty(segs: seq<SegmentState>)
    requires Linked(segs) && Ascending(Bases(segs))
    ensures forall i :: 0 <= i < |segs| - 1 ==> segs[i].records != []
  {
    forall i | 0 <= i < |segs| - 1
      ensures segs[i].records != []
    {
      assert Before(segs, i + 1) == segs[i];
      assert Bases(segs)[i] < Bases(segs)[i + 1];
    }
  }

  lemma SealFrontAt(segs: seq<SegmentState>)
    ensures forall i {:trigger SealFront(segs)[i]} :: 0 <= i < |segs| ==>
              SealFront(segs)[i] == if i == |segs| - 1 then segs[i] else Seal(segs[i])
  {
  }

  lemma SealFrontRecords(segs: seq<SegmentState>)
    requires segs != []
    ensures AllRecords(SealFront(segs)) == AllRecords(segs)
  {
    hide SealAll;
    var front, last := segs[..|segs| - 1], segs[|segs| - 1];
    SealAllRecords(front);
    AllRecordsSnoc(SealAll(front), last);
  }

  lemma SealFrontLinked(segs: seq<SegmentState>)
    requires Linked(segs)
    ensures Linked(SealFront(segs))
  {
    hide SealFront, Total;
    SealFrontAt(segs);
    forall i | 0 < i < |segs|
      ensures NextOffset(Before(SealFront(segs), i)) == SealFront(segs)[i].base
    {
      assert SealFront(segs)[i - 1] == Seal(segs[i - 1]);
      assert Before(segs, i) == segs[i - 1];
    }
  }

  lemma SealFrontKeeps(segs: seq<SegmentState>)
    requires segs != [] && Linked(segs) && AllInv(segs) && AllIndexable(segs) && Ascending(Bases(segs))
    ensures var sealed := SealFront(segs);
            && Linked(sealed) && AllInv(sealed) && AllIndexable(sealed) && Sealed(sealed)
            && AllRecords(sealed) == AllRecords(segs)
  {
    hide Indexable, Stored, Total, SealFront, Linked, AllRecords;
    SealFrontAt(segs);
    SealFrontRecords(segs);
    SealFrontLinked(segs);
    LinkedNotEmpty(segs);
  }

  /** Whatever opens is a well-formed chain, with a tail to write to. */
  lemma OpenLogInv(files: map<int, FileState>, bases: seq<int>, maxBytes: int)
    requires Ascending(bases) && OpenLog(files, bases, maxBytes).Ok?
    ensures var s := OpenLog(files, bases, maxBytes).value; LogInv(s) && s.segs != [] && Tail(s).open
  {
    hide OpenStates, AllInv, AllIndexable, Linked, Sealed, SealFront;
    var all := if bases == [] then [0] else bases;
    OpenedSegments(files, all);
    var segs := OpenStates(files, all).value;
    assert Bases(segs) == all;
    SealFrontKeeps(segs);
    SealFrontAt(segs);
    LastOpened(files, all);
  }

  /** What the scan of one file of the directory finds. */
  function RecoveredAt(files: map<int, FileState>, base: int): Result<Recovered> {
    Recover(FileAt(files, base).bytes, base, INTERVAL_BYTES)
  }

  /** The i-th file is the first that cannot be opened. */
  ghost predicate FirstBad(files: map<int, FileState>, bases: seq<int>, i: nat) {
    && i < |bases| && RecoveredAt(files, bases[i]).Err?
    && forall j :: 0 <= j < i ==> RecoveredAt(files, bases[j]).Ok?
  }

  ghost predicate NoneBad(files: map<int, FileState>, bases: seq<int>) {
    forall i :: 0 <= i < |bases| ==> RecoveredAt(files, bases[i]).Ok?
  }

  /** Each file begins where the records of the one before it end. */
  ghost predicate NoGap(files: map<int, FileState>, bases: seq<int>)
    requires NoneBad(files, bases)
  {
    forall i {:trigger bases[i]} :: 0 < i < |bases| ==> bases[i] == EndAt(files, bases, i - 1)
  }

  ghost function EndAt(files: map<int, FileState>, bases: seq<int>, i: nat): int
    requires NoneBad(files, bases) && i < |bases|
  {
    bases[i] + |RecoveredAt(files, bases[i]).value.records|
  }

  lemma {:induction false} OpenStatesAre(files: map<int, FileState>, bases: seq<int>)
    ensures var out := OpenStates(files, bases);
            && (out.Ok? <==> NoneBad(files, bases))
            && (out.Ok? ==> forall i :: 0 <= i < |bases| ==> OpenState(FileAt(files, bases[i]), bases[i]) == Ok(out.value[i]))
            && (forall i: nat :: FirstBad(files, bases, i) ==> out == Err(RecoveredAt(files, bases[i]).error))
  {
    hide RecoveredAt, OpenState, FileAt;
    if bases == [] {
    } else {
      var n := |bases| - 1;
      var front := bases[..n];
      OpenStatesAre(files, front);
      OpenedAt(files, bases[n]);
      forall i: nat | FirstBad(files, bases, i)
        ensures OpenStates(files, bases) == Err(RecoveredAt(files, bases[i]).error)
      {
        assert forall j :: 0 <= j < n ==> front[j] == bases[j];
        if i < n {
          assert FirstBad(files, front, i);
        } else {
          assert NoneBad(files, front);
        }
      }
      FrontBad(files, bases);
    }
  }

  lemma FrontBad(files: map<int, FileState>, bases: seq<int>)
    requires bases != []
    ensures NoneBad(files, bases) <==> NoneBad(files, bases[..|bases| - 1]) && RecoveredAt(files, bases[|bases| - 1]).Ok?
  {
    hide RecoveredAt;
    var front := bases[..|bases| - 1];
    assert forall j :: 0 <= j < |front| ==> front[j] == bases[j];
  }

  lemma OpenedAt(files: map<int, FileState>, base: int)
    ensures var rec, out := RecoveredAt(files, base), OpenState(FileAt(files, base), base);
            match rec
            case Ok(found) =>
              && out.Ok? && out.value.base == base && out.value.records == found.records && out.value.open
              && out.value.synced == Min(FileAt(files, base).synced, found.position)
            case Err(e) => out == Err(e)
  {
    hide Recover;
  }

  /**
   Opening a directory that lists files, in full. A limit outside 1 to 2^32 is a
   ValueError; a file that cannot be opened raises its own error, the first such
   one; a gap between files is CorruptLog. Otherwise the log has one segment for
   each file, in order, with the records found there; only the last is open.
   */
  lemma OpenExactly(files: map<int, FileState>, bases: seq<int>, maxBytes: int)
    requires bases != [] && Ascending(bases)
    ensures var out := OpenLog(files, bases, maxBytes);
            if !(1 <= maxBytes <= 0x1_0000_0000) then out == Err(ValueError)
            else if !NoneBad(files, bases) then
              exists i: nat :: FirstBad(files, bases, i) && out == Err(RecoveredAt(files, bases[i]).error)
            else if !NoGap(files, bases) then out == Err(CorruptLog)
            else
              && out.Ok? && out.value.maxBytes == maxBytes && |out.value.segs| == |bases|
              && forall i :: 0 <= i < |bases| ==>
                   && out.value.segs[i].base == bases[i]
                   && out.value.segs[i].records == RecoveredAt(files, bases[i]).value.records
                   && (out.value.segs[i].open <==> i == |bases| - 1)
                   && (i == |bases| - 1 ==>
                         out.value.segs[i].synced == Min(FileAt(files, bases[i]).synced, RecoveredAt(files, bases[i]).value.position))
  {
    hide Recover, OpenStates, Linked, SealFront, RecoveredAt, FirstBad, OpenState;
    OpenStatesAre(files, bases);
    if NoneBad(files, bases) {
      var segs := OpenStates(files, bases).value;
      forall i | 0 <= i < |bases|
        ensures segs[i].base == bases[i] && segs[i].records == RecoveredAt(files, bases[i]).value.records && segs[i].open
        ensures segs[i].synced == Min(FileAt(files, bases[i]).synced, RecoveredAt(files, bases[i]).value.position)
      {
        OpenedAt(files, bases[i]);
      }
      LinkedIsNoGap(files, bases, segs);
      SealFrontAt(segs);
      assert forall i :: 0 <= i < |segs| ==> Seal(segs[i]).base == segs[i].base && Seal(segs[i]).records == segs[i].records;
    } else {
      SomeBad(files, bases);
    }
  }

  lemma LinkedIsNoGap(files: map<int, FileState>, bases: seq<int>, segs: seq<SegmentState>)
    requires NoneBad(files, bases) && |segs| == |bases|
    requires forall i :: 0 <= i < |bases| ==>
               segs[i].base == bases[i] && segs[i].records == RecoveredAt(files, bases[i]).value.records
    ensures Linked(segs) <==> NoGap(files, bases)
  {
    hide RecoveredAt;
    if Linked(segs) {
      forall i | 0 < i < |bases|
        ensures bases[i] == EndAt(files, bases, i - 1)
      {
        assert segs[i].base == NextOffset(Before(segs, i));
      }
    } else {
      var i :| 0 < i < |segs| && NextOffset(Before(segs, i)) != segs[i].base;
      assert bases[i] != EndAt(files, bases, i - 1);
    }
  }

  lemma {:induction false} SomeBad(files: map<int, FileState>, bases: seq<int>)
    requires !NoneBad(files, bases)
    ensures exists i: nat :: FirstBad(files, bases, i)
    decreases |bases|
  {
    hide RecoveredAt;
    var n := |bases| - 1;
    if NoneBad(files, bases[..n]) {
      assert forall j :: 0 <= j < n ==> bases[..n][j] == bases[j];
      assert FirstBad(files, bases, n);
    } else {
      SomeBad(files, bases[..n]);
      var i: nat :| FirstBad(files, bases[..n], i);
      assert forall j :: 0 <= j <= i ==> bases[..n][j] == bases[j];
      assert FirstBad(files, bases, i);
    }
  }

  /** A log begins at the least of the bases its directory lists. */
  lemma OpensAtLeast(files: map<int, FileState>, names: seq<int>, maxBytes: int)
    requires names != [] && NoRepeats(names) && OpenLog(files, SortBases(names), maxBytes).Ok?
    ensures var s := OpenLog(files, SortBases(names), maxBytes).value;
            && LogInv(s) && s.segs != []
            && FirstOffset(s) in names && forall n :: n in names ==> FirstOffset(s) <= n
  {
    hide OpenLog, LogInv, NoneBad, NoGap, FirstBad;
    SortBasesAscends(names);
    var bases := SortBases(names);
    assert names[0] in names;
    assert bases != [];
    OpenLogInv(files, bases, maxBytes);
    OpenExactly(files, bases, maxBytes);
  }

  /**
   A new partition begins at offset 0: a directory without files opens, under any
   valid limit, to one open and empty segment, and the first record that can be
   encoded gets offset 0 there.
   */
  lemma OpensNew(maxBytes: int, key: Option<seq<byte>>, value: Option<seq<byte>>, timestamp: int)
    ensures !(1 <= maxBytes <= 0x1_0000_0000) ==> OpenLog(map[], SortBases([]), maxBytes) == Err(ValueError)
    ensures 1 <= maxBytes <= 0x1_0000_0000 ==>
              var out, s := OpenLog(map[], SortBases([]), maxBytes), LogState(maxBytes, [SegmentState(0, [], 0, true)]);
              && out == Ok(s) && LogInv(s) && FirstOffset(s) == 0 && LogNext(s) == 0
              && var (after, r) := AppendLog(s, key, value, timestamp);
                 var record := Record(0, timestamp, key, value);
                 && (r.Ok? <==> Encodable(record))
                 && (r.Ok? ==> r.value == 0 && AllRecords(after.segs) == [record])
  {
    hide AppendLog, Encodable, ReadOne, Linked, Sealed, AllInv, AllIndexable, OpenStates, SealFront;
    if 1 <= maxBytes <= 0x1_0000_0000 {
      OneEmptyFile(map[], [0]);
      var s := LogState(maxBytes, [SegmentState(0, [], 0, true)]);
      OneSegmentInv(s);
      LinkedOne(s.segs);
      AppendOutcome(s, key, value, timestamp);
      assert AllRecords(s.segs) == AllRecords([]) + [];
    }
  }

  lemma OneEmptyFile(files: map<int, FileState>, bases: seq<int>)
    requires 0 !in files && bases == [0]
    ensures OpenStates(files, bases) == Ok([SegmentState(0, [], 0, true)])
  {
    hide Recover, OpenStates;
    EmptyRecovers();
    OpenStatesAre(files, bases);
    assert OpenState(FileAt(files, 0), bases[0]) == Ok(SegmentState(0, [], 0, true));
    assert NoneBad(files, bases);
    assert OpenStates(files, bases).value == [SegmentState(0, [], 0, true)];
  }

  lemma EmptyRecovers()
    ensures Recover([], 0, INTERVAL_BYTES) == Ok(Recovered([], 0, []))
  {
  }

  lemma LinkedOne(segs: seq<SegmentState>)
    requires |segs| == 1
    ensures Linked(segs) && SealFront(segs) == segs
  {
  }

  lemma LastOpened(files: map<int, FileState>, bases: seq<int>)
    requires bases != [] && OpenStates(files, bases).Ok?
    ensures var segs := OpenStates(files, bases).value; segs[|segs| - 1].open
  {
    hide Recover;
  }

  // ------------------------------------------------------------------ crashes

  lemma {:induction false} FilesOfAt(segs: seq<SegmentState>)
    requires AllInv(segs) && Ascending(Bases(segs))
    ensures forall b :: b in FilesOf(segs) <==> b in Bases(segs)
    ensures forall i {:trigger segs[i]} :: 0 <= i < |segs| ==>
              segs[i].base in FilesOf(segs) && AllEncodable(segs[i].records) && FilesOf(segs)[segs[i].base] == FileOf(segs[i])
  {
    hide EncodeAll, Encodable, Total, FileOf;
    if segs == [] {
    } else {
      var n := |segs| - 1;
      var front := segs[..n];
      assert forall i | 0 <= i < n :: Bases(front)[i] == Bases(segs)[i];
      FilesOfAt(front);
      assert Bases(segs) == Bases(front) + [segs[n].base];
      assert SegmentInv(segs[n]);
      forall i | 0 <= i < |segs|
        ensures segs[i].base in FilesOf(segs) && AllEncodable(segs[i].records) && FilesOf(segs)[segs[i].base] == FileOf(segs[i])
      {
        if i < n {
          assert Bases(segs)[i] < Bases(segs)[n];
          assert front[i] == segs[i];
        }
      }
    }
  }

  /** Replacing one segment replaces one file. */
  lemma {:induction false} FilesOfUpdate(segs: seq<SegmentState>, i: nat, t: SegmentState)
    requires i < |segs| && AllInv(segs) && SegmentInv(t) && t.base == segs[i].base
    requires Ascending(Bases(segs))
    ensures AllInv(segs[i := t]) && AllEncodable(t.records)
    ensures FilesOf(segs[i := t]) == FilesOf(segs)[t.base := FileOf(t)]
  {
    hide EncodeAll, Encodable, Total, FileOf;
    var n := |segs| - 1;
    var front, last := segs[..n], segs[n];
    assert SegmentInv(last);
    if i == n {
      assert segs[i := t][..n] == front;
    } else {
      assert forall j | 0 <= j < n :: Bases(front)[j] == Bases(segs)[j];
      FilesOfUpdate(front, i, t);
      assert segs[i := t][..n] == front[i := t];
      assert Bases(segs)[i] < Bases(segs)[n];
      assert FilesOf(segs[i := t]) == FilesOf(front)[t.base := FileOf(t)][last.base := FileOf(last)];
    }
  }

  lemma FilesOfSnoc(segs: seq<SegmentState>, t: SegmentState)
    requires AllInv(segs) && SegmentInv(t)
    ensures AllInv(segs + [t]) && AllEncodable(t.records)
    ensures FilesOf(segs + [t]) == FilesOf(segs)[t.base := FileOf(t)]
  {
    hide EncodeAll, Encodable, Total, FileOf;
    assert (segs + [t])[..|segs|] == segs;
  }

  lemma FilesOfIs(segs: seq<SegmentState>, files: map<int, FileState>)
    requires AllInv(segs) && Ascending(Bases(segs))
    requires forall b :: b in files <==> b in Bases(segs)
    requires forall i {:trigger segs[i]} :: 0 <= i < |segs| ==>
               segs[i].base in files && AllEncodable(segs[i].records) && files[segs[i].base] == FileOf(segs[i])
    ensures files == FilesOf(segs)
  {
    hide EncodeAll, Encodable, Total, FileOf, FilesOf, SegmentInv, Ascending, AllEncodable;
    FilesOfAt(segs);
    forall b | b in files
      ensures b in FilesOf(segs) && files[b] == FilesOf(segs)[b]
    {
      var i :| 0 <= i < |segs| && Bases(segs)[i] == b;
      assert segs[i].base == b;
    }
    var all := FilesOf(segs);
    assert forall b :: b in all <==> b in files;
    assert files.Keys == all.Keys;
    assert files == all;
  }

  lemma TailFile(s: LogState, t: SegmentState)
    requires LogInv(s) && SegmentInv(t) && t.base == Tail(s).base
    ensures AllInv(s.segs) && AllInv(WithTail(s, t).segs) && AllEncodable(t.records)
    ensures FilesOf(WithTail(s, t).segs) == FilesOf(s.segs)[t.base := FileOf(t)]
  {
    hide Stored, Total, AllIndexable, FileOf;
    BasesSorted(s.segs);
    FilesOfUpdate(s.segs, |s.segs| - 1, t);
  }

  lemma NewTailFile(s: LogState, t: SegmentState)
    requires LogInv(s) && SegmentInv(t)
    ensures AllInv(s.segs) && AllInv(s.segs + [t]) && AllEncodable(t.records)
    ensures FilesOf(s.segs + [t]) == FilesOf(s.segs)[t.base := FileOf(t)]
  {
    hide Stored, Total, AllIndexable, FileOf;
    FilesOfSnoc(s.segs, t);
  }

  /** The next base is free: rolling never reopens an existing file. */
  lemma NextBaseIsFree(s: LogState)
    requires LogInv(s) && Position(Tail(s)) != 0
    ensures FileAt(FilesOf(s.segs), LogNext(s)) == FileState([], 0)
    ensures LogNext(s) !in FilesOf(s.segs)
  {
    hide EncodeAll, Encodable, Indexable, FileOf;
    BasesSorted(s.segs);
    FilesOfAt(s.segs);
    var n := |s.segs| - 1;
    forall i | 0 <= i <= n
      ensures s.segs[i].base < LogNext(s)
    {
      if i < n {
        assert Bases(s.segs)[i] < Bases(s.segs)[n];
      }
    }
  }

  lemma RecoverNothing(base: int)
    ensures Recover([], base, INTERVAL_BYTES) == Ok(Recovered([], 0, []))
  {
  }

  lemma {:induction false} AscendingUnique(a: seq<int>, b: seq<int>)
    requires Ascending(a) && Ascending(b)
    requires forall x :: x in a <==> x in b
    ensures a == b
  {
    if a == [] && b == [] {
    } else {
      assert a != [] && b != [] by {
        assert a != [] ==> a[0] in a && a[0] in b;
        assert b != [] ==> b[0] in b && b[0] in a;
      }
      var m, n := |a| - 1, |b| - 1;
      assert a[m] in a && b[n] in b;
      assert a[m] in b && b[n] in a;
      assert a[m] == b[n];
      forall x
        ensures x in a[..m] <==> x in b[..n]
      {
        assert x in a <==> x in a[..m] || x == a[m];
        assert x in b <==> x in b[..n] || x == b[n];
        assert a[m] !in a[..m] && b[n] !in b[..n];
      }
      AscendingUnique(a[..m], b[..n]);
      assert a == a[..m] + [a[m]] && b == b[..n] + [b[n]];
    }
  }

  /** The files after losing everything of the tail past `cut`, a length at least what was fsynced. */
  ghost function CrashFiles(s: LogState, cut: nat): map<int, FileState>
    requires LogInv(s) && Tail(s).synced <= cut <= Position(Tail(s))
  {
    EncodeAllLength(Tail(s).records);
    FilesOf(s.segs)[Tail(s).base := FileState(EncodeAll(Tail(s).records)[..cut], Tail(s).synced)]
  }

  /** What is left of a tail cut at some byte: its whole frames. */
  function CutTail(t: SegmentState, cut: nat): SegmentState {
    var n := Whole(t.records, cut);
    SegmentState(t.base, t.records[..n], Min(t.synced, Start(t.records, n)), true)
  }

  lemma RecoverCut(t: SegmentState, cut: nat)
    requires SegmentInv(t) && Indexable(t.records, t.base, INTERVAL_BYTES)
    requires cut <= Position(t)
    ensures |EncodeAll(t.records)| == Position(t)
    ensures OpenState(FileState(EncodeAll(t.records)[..cut], t.synced), t.base) == Ok(CutTail(t, cut))
  {
    hide EncodeAll, Encodable, Total, Indexable, Recover, ReadOne, IndexOf;
    var n := Whole(t.records, cut);
    CutFile(t.records, cut);
    IndexablePrefix(t.records, n, t.base, INTERVAL_BYTES);
    RecoverComplete(t.records[..n], EncodeAll(t.records)[Start(t.records, n)..cut], t.base, INTERVAL_BYTES);
  }

  /** A sealed segment reopens to itself, but for the write handle it is given first. */
  lemma ReopenSealed(t: SegmentState)
    requires SegmentInv(t) && Indexable(t.records, t.base, INTERVAL_BYTES) && !t.open
    ensures OpenState(FileOf(t), t.base) == Ok(t.(open := true))
  {
    hide EncodeAll, Encodable, Total, Indexable;
    RecoverCut(t, Position(t));
    WholeOfAll(t.records);
    assert EncodeAll(t.records)[..Position(t)] == EncodeAll(t.records);
    assert t.records[..|t.records|] == t.records;
  }

  lemma WholeOfAll(rs: seq<Record>)
    ensures Whole(rs, Total(rs)) == |rs|
  {
  }

  function Reopened(s: LogState, cut: nat): seq<SegmentState>
    requires s.segs != []
  {
    seq(|s.segs|, i requires 0 <= i < |s.segs| =>
      if i == |s.segs| - 1 then CutTail(s.segs[i], cut) else s.segs[i].(open := true))
  }

  /** The log a crash leaves behind: every sealed segment, and the whole frames of the tail. */
  function Survivor(s: LogState, cut: nat, maxBytes: int): LogState
    requires s.segs != []
  {
    LogState(maxBytes, s.segs[|s.segs| - 1 := CutTail(Tail(s), cut)])
  }

  lemma ReopenEach(s: LogState, cut: nat, i: nat)
    requires LogInv(s) && Tail(s).synced <= cut <= Position(Tail(s)) && i < |s.segs|
    ensures var t := Reopened(s, cut)[i];
            t.base == s.segs[i].base && OpenState(FileAt(CrashFiles(s, cut), t.base), t.base) == Ok(t)
  {
    hide EncodeAll, Encodable, Total, Indexable, OpenState, CutTail;
    BasesSorted(s.segs);
    assert Ascending(Bases(s.segs));
    FilesOfAt(s.segs);
    var t := s.segs[i];
    if i == |s.segs| - 1 {
      RecoverCut(t, cut);
      CutTailBase(t, cut);
    } else {
      ReopenSealed(t);
    }
  }

  lemma CutTailBase(t: SegmentState, cut: nat)
    ensures CutTail(t, cut).base == t.base
  {
  }

  /**
   Reopening after a crash succeeds, for every cut of the tail between what was
   fsynced and what was written, and yields exactly the survivor.
   */
  lemma ReopenAfterCrash(s: LogState, cut: nat, maxBytes: int)
    requires LogInv(s) && Tail(s).synced <= cut <= Position(Tail(s)) && ValidLimit(maxBytes)
    ensures OpenLog(CrashFiles(s, cut), Bases(s.segs), maxBytes) == Ok(Survivor(s, cut, maxBytes))
  {
    hide EncodeAll, Encodable, Total, Indexable, OpenState, CutTail, OpenStates, CrashFiles, SealFront, Linked, Stored;
    var files, segs := CrashFiles(s, cut), Reopened(s, cut);
    forall i | 0 <= i < |segs|
      ensures OpenState(FileAt(files, segs[i].base), segs[i].base) == Ok(segs[i])
      ensures segs[i].base == s.segs[i].base
    {
      ReopenEach(s, cut, i);
    }
    OpenStatesIs(files, segs);
    assert Bases(segs) == Bases(s.segs);
    ReopenedLinked(s, cut);
    ResealFront(s, cut);
  }

  lemma ReopenedLinked(s: LogState, cut: nat)
    requires LogInv(s)
    ensures Linked(Reopened(s, cut))
  {
    hide AllInv, AllIndexable, Sealed, CutTail;
    var segs := Reopened(s, cut);
    CutTailBase(Tail(s), cut);
    forall i | 0 < i < |segs|
      ensures NextOffset(Before(segs, i)) == segs[i].base
    {
      assert Before(segs, i) == Before(s.segs, i).(open := true);
    }
  }

  lemma ResealFront(s: LogState, cut: nat)
    requires LogInv(s)
    ensures SealFront(Reopened(s, cut)) == s.segs[|s.segs| - 1 := CutTail(Tail(s), cut)]
  {
    hide Encodable, Indexable, CutTail, Stored;
    var n := |s.segs| - 1;
    var sealed := SealFront(Reopened(s, cut));
    forall i | 0 <= i < n
      ensures sealed[i] == s.segs[i]
    {
      assert SegmentInv(s.segs[i]);
      assert sealed[i] == Seal(Reopened(s, cut)[i]);
    }
  }

  /** The bases a restart finds, sorted, are those of the chain. */
  lemma CrashBases(s: LogState, cut: nat, bases: seq<int>)
    requires LogInv(s) && Tail(s).synced <= cut <= Position(Tail(s))
    requires Ascending(bases) && forall b :: b in bases <==> b in CrashFiles(s, cut)
    ensures bases == Bases(s.segs)
  {
    hide EncodeAll, Encodable, Total, Indexable, FileOf;
    BasesSorted(s.segs);
    FilesOfAt(s.segs);
    assert Bases(s.segs)[|s.segs| - 1] == Tail(s).base;
    AscendingUnique(bases, Bases(s.segs));
  }

  /** A restart after a crash: whatever order the directory lists its files in, it opens to the survivor. */
  lemma RestartOpens(s: LogState, cut: nat, names: seq<int>, maxBytes: int)
    requires LogInv(s) && Tail(s).synced <= cut <= Position(Tail(s)) && ValidLimit(maxBytes)
    requires NoRepeats(names) && forall b :: b in names <==> b in CrashFiles(s, cut)
    ensures OpenLog(CrashFiles(s, cut), SortBases(names), maxBytes) == Ok(Survivor(s, cut, maxBytes))
  {
    hide LogInv, CrashFiles, OpenLog, Survivor, NoRepeats, Ascending, SortBases, Position;
    SortBasesAscends(names);
    CrashBases(s, cut, SortBases(names));
    ReopenAfterCrash(s, cut, maxBytes);
  }
}
