/** One topic-partition: the chain of segments, updated in place and only at its tail. */
module Logs {
  import opened Bytes
  import opened Bisect
  import opened Records
  import opened Frames
  import opened Indexes
  import opened Recovery
  import opened Reading
  import opened Segments
  import opened Chains
  import opened Opening

  class Log {
    const dir: Directory
    const maxSegmentBytes: int
    var segments: seq<Segment>
    ghost var state: LogState

    /** Segment objects, files and the chain they stand for agree. */
    ghost predicate Valid()
      reads this, dir, segments, IndexesOf(segments)
    {
      && LogInv(state)
      && state.maxBytes == maxSegmentBytes
      && dir.files == FilesOf(state.segs)
      && 0 < |segments| == |state.segs|
      && StandFor(dir, maxSegmentBytes, segments, state.segs)
    }

    constructor (dir: Directory, maxSegmentBytes: int, segments: seq<Segment>, ghost state: LogState)
      ensures this.dir == dir && this.maxSegmentBytes == maxSegmentBytes
      ensures this.segments == segments && this.state == state
    {
      this.dir := dir;
      this.maxSegmentBytes := maxSegmentBytes;
      this.segments := segments;
      this.state := state;
    }

    /**
     Opens every segment named by a directory listing, in any order, checks that
     they follow one another, and seals all but the last. A failed open leaves
     the files repaired up to the first that fails, and the others alone.
     */
    static method Open(dir: Directory, names: seq<int>, maxSegmentBytes: int) returns (r: Result<Log>)
      requires NoRepeats(names) && forall b :: b in names <==> b in dir.files
      requires SoundFiles(dir.files)
      modifies dir
      ensures match OpenLog(old(dir.files), SortBases(names), maxSegmentBytes)
              case Err(e) =>
                && r == Err(e)
                && dir.files == (if ValidLimit(maxSegmentBytes) then TouchedFiles(old(dir.files), AllBases(names))
                                 else old(dir.files))
                && MerelyRepaired(old(dir.files), dir.files)
              case Ok(s) => r.Ok? && fresh(r.value) && r.value.Valid() && r.value.dir == dir && r.value.state == s
    {
      hide OpenStates, StandFor, OnDisk, SealFront, LogInv, Linked, TouchedFiles, MerelyRepaired;
      SortBasesAscends(names);
      TouchedMerely(dir.files, AllBases(names));
      NothingRepaired(dir.files);
      var bases := SortBases(names);
      if bases == [] {
        bases := [0];
      }
      ghost var before := dir.files;
      var segments, states, failed := OpenSegments(dir, bases, maxSegmentBytes);
      if failed.Some? {
        return Err(failed.value);
      }
      var linked := ChainCheck(dir, maxSegmentBytes, segments, states);
      if !linked {
        return Err(CorruptLog);
      }
      OpenLogInv(before, SortBases(names), maxSegmentBytes);
      OpenedBases(before, bases);
      OnDiskHas(dir.files, states);
      SealAllButTail(dir, maxSegmentBytes, segments, states);
      var log := new Log(dir, maxSegmentBytes, segments, LogState(maxSegmentBytes, SealFront(states)));
      log.StandsForState(bases);
      return Ok(log);
    }

    lemma StandsForState(bases: seq<int>)
      requires LogInv(state) && state.maxBytes == maxSegmentBytes
      requires StandFor(dir, maxSegmentBytes, segments, state.segs) && OnDisk(dir.files, state.segs)
      requires bases == Bases(state.segs) && Ascending(bases) && forall b :: b in dir.files <==> b in bases
      ensures Valid()
    {
      hide EncodeAll, Stored, Total, IndexOf, PackEntries, FilesOf, Linked, Sealed, AllIndexable, FileOf;
      FilesOfIs(state.segs, dir.files);
    }

    function NextOffset(): (offset: int)
      requires Valid()
      reads this, dir, segments, IndexesOf(segments)
      ensures offset == LogNext(state)
      ensures offset == FirstOffset(state) + |AllRecords(state.segs)|
    {
      hide AllRecords, Linked, Sealed, AllIndexable, FilesOf;
      ChainStored(state.segs);
      segments[|segments| - 1].nextOffset
    }

    method Sync() returns (r: Result<()>)
      requires Valid()
      modifies this, dir, segments, IndexesOf(segments)
      ensures Valid() && segments == old(segments)
      ensures (state, r) == SyncLog(old(state))
    {
      hide Stored, Total, AllRecords, LogInv, FilesOf, StandFor, AllEncodable;
      SegmentIsValid(|segments| - 1);
      SyncKeepsChain(state);
      SameTail(state);
      r := SyncOne(dir, maxSegmentBytes, segments, state.segs, |segments| - 1);
      ghost var tail := if Tail(state).open then Flush(Tail(state)) else Tail(state);
      TailFile(state, tail);
      state := WithTail(state, tail);
    }

    method CloseActive()
      requires Valid()
      modifies this, dir, segments, IndexesOf(segments)
      ensures Valid() && segments == old(segments)
      ensures state == WithTail(old(state), Seal(Tail(old(state))))
    {
      hide Stored, Total, AllRecords, LogInv, FilesOf, StandFor, AllEncodable;
      SegmentIsValid(|segments| - 1);
      SealTailKeeps(state);
      CloseOne(dir, maxSegmentBytes, segments, state.segs, |segments| - 1);
      TailFile(state, Seal(Tail(state)));
      state := WithTail(state, Seal(Tail(state)));
    }

    /** A new segment at the next offset becomes the tail. */
    method StartTail()
      requires Valid() && !Tail(state).open && Tail(state).records != []
      modifies this, dir
      ensures Valid()
      ensures |segments| == |old(segments)| + 1 && segments[..|old(segments)|] == old(segments)
      ensures fresh(segments[|old(segments)|]) && fresh(segments[|old(segments)|].index)
      ensures state == WithNewTail(old(state))
    {
      hide EncodeAll, Stored, Total, IndexOf, PackEntries, AllRecords, LogInv, FilesOf, Recover, Size;
      WithNewTailKeeps(state);
      var base := segments[|segments| - 1].nextOffset;
      var staleIndex: seq<byte> := *;      // whatever an .index file of that name holds
      assert base == LogNext(state);
      var created := Segment.Open(dir, base, maxSegmentBytes, staleIndex);
      assert created.value.State() == SegmentState(base, [], 0, true);
      hide StandFor;
      StandForSnoc(dir, maxSegmentBytes, segments, state.segs, created.value);
      segments := segments + [created.value];
      state := WithNewTail(state);
    }

    /** Seals a tail that holds records and starts a new one at the next offset. */
    method Roll()
      requires Valid()
      modifies this, dir, segments, IndexesOf(segments)
      ensures Valid()
      ensures old(segments) <= segments && |segments| <= |old(segments)| + 1
      ensures |segments| > |old(segments)| ==>
                fresh(segments[|old(segments)|]) && fresh(segments[|old(segments)|].index)
      ensures state == RollLog(old(state))
    {
      hide EncodeAll, Stored, IndexOf, PackEntries, AllRecords, LogInv, FilesOf, Size, StandFor, SegmentInv, FileOf, Total;
      SegmentIsValid(|segments| - 1);
      NoRecordsNoBytes(Tail(state));
      if segments[|segments| - 1].position == 0 {
        return;
      }
      CloseActive();
      StartTail();
    }

    /** Writes one record to the tail. */
    method AppendToActive(record: Record) returns (r: Result<nat>)
      requires Valid() && record.offset == LogNext(state)
      requires HasRoom(Tail(state), maxSegmentBytes, record)
      modifies this, dir, segments, IndexesOf(segments)
      ensures Valid() && segments == old(segments)
      ensures var (tail, out) := AppendTo(Tail(old(state)), record);
              r == out && state == WithTail(old(state), tail)
    {
      hide Stored, Total, AllRecords, LogInv, FilesOf, StandFor, AllEncodable, AppendTo, HasRoom;
      SegmentIsValid(|segments| - 1);
      RoomyAppendKeeps(state, record);
      r := AppendOne(dir, maxSegmentBytes, segments, state.segs, |segments| - 1, record);
      TailFile(state, AppendTo(Tail(state), record).0);
      state := WithTail(state, AppendTo(Tail(state), record).0);
    }

    /** Writes the payload under the log's next offset, rolling first if the tail has no room. */
    method Append(key: Option<seq<byte>>, value: Option<seq<byte>>, timestamp: int) returns (r: Result<int>)
      requires Valid()
      modifies this, dir, segments, IndexesOf(segments)
      ensures Valid()
      ensures old(segments) <= segments && |segments| <= |old(segments)| + 1
      ensures |segments| > |old(segments)| ==>
                fresh(segments[|old(segments)|]) && fresh(segments[|old(segments)|].index)
      ensures (state, r) == AppendLog(old(state), key, value, timestamp)
      ensures match r
              case Ok(offset) =>
                && offset == LogNext(old(state))
                && AllRecords(state.segs) == AllRecords(old(state).segs) + [Record(offset, timestamp, key, value)]
              case Err(_) => AllRecords(state.segs) == AllRecords(old(state).segs) && LogNext(state) == LogNext(old(state))
    {
      hide Stored, IndexOf, AllRecords, LogInv, FilesOf, Size, RollLog, Total, StandFor, AppendTo, SegmentInv, FileOf, Encodable, FirstOffset;
      var active := segments[|segments| - 1];
      var offset := active.nextOffset;
      var record := Record(offset, timestamp, key, value);
      SegmentIsValid(|segments| - 1);
      AppendOutcome(state, key, value, timestamp);
      RolledHasRoom(state, record);
      if !active.HasRoomFor(record) {
        Roll();
      }
      var out := AppendToActive(record);
      return if out.Ok? then Ok(offset) else Err(out.error);
    }

    method Close()
      requires Valid()
      modifies this, dir, segments, IndexesOf(segments)
      ensures Valid() && segments == old(segments)
      ensures state == CloseLog(old(state))
    {
      hide EncodeAll, Stored, IndexOf, PackEntries, AllRecords, LogInv, FilesOf, Total;
      CloseSealsTail(state);
      var n := |segments| - 1;
      for i := 0 to n
        invariant Valid() && segments == old(segments) && state == old(state)
      {
        CloseSealed(i);
      }
      CloseActive();
    }

    /** Closing a segment that is sealed already does nothing. */
    method CloseSealed(i: nat)
      requires Valid() && i < |segments| - 1
      modifies this, dir, segments, IndexesOf(segments)
      ensures Valid() && segments == old(segments) && state == old(state)
    {
      hide Stored, Total, AllRecords, FilesOf, StandFor, AllEncodable, AllInv, AllIndexable, Linked, FileOf;
      SegmentIsValid(i);
      CloseOne(dir, maxSegmentBytes, segments, state.segs, i);
      assert state.segs[i := Seal(state.segs[i])] == state.segs;
      assert dir.files == old(dir.files);
    }

    /** Every record from `offset` on, across segment boundaries. */
    method ReadFrom(offset: int) returns (r: Result<Stream>)
      requires Valid()
      ensures Valid()
      ensures r == if offset < FirstOffset(state) then Err(OffsetOutOfRange)
                   else Ok(Stream(Suffix(AllRecords(state.segs), offset - FirstOffset(state)), None))
    {
      hide EncodeAll, Stored, IndexOf, PackEntries, AllRecords, LogInv, FilesOf, Total, ReadChain, FloorSegment;
      if offset < segments[0].base {
        return Err(OffsetOutOfRange);
      }
      FloorSearch(state, offset);
      var stream := IterFrom(offset);
      return Ok(stream);
    }

    method IterFrom(offset: int) returns (stream: Stream)
      requires Valid() && offset >= FirstOffset(state)
      ensures Valid()
      ensures 0 <= FloorSegment(state.segs, offset) < |segments|
      ensures stream == Stream(ReadChain(state.segs, FloorSegment(state.segs, offset), offset), None)
    {
      hide EncodeAll, Stored, IndexOf, PackEntries, AllRecords, LogInv, FilesOf, Total, ReadChain, ReadIndexed;
      hide SegmentInv, Suffix, BisectRight;
      BasesStand(dir, maxSegmentBytes, segments, state.segs);
      var snapshot := segments;
      var bases := seq(|snapshot|, i requires 0 <= i < |snapshot| => snapshot[i].base);
      assert bases == Bases(state.segs);
      FloorSearch(state, offset);
      var start := BisectRight(bases, offset) - 1;
      var yielded := [];
      var i: nat := start;
      assert yielded + ReadChain(state.segs, i, offset) == ReadChain(state.segs, i, offset);
      while i < |snapshot|
        invariant start <= i <= |snapshot|
        invariant yielded + ReadChain(state.segs, i, offset) == ReadChain(state.segs, start, offset)
      {
        SegmentIsValid(i);
        var t := snapshot[i];
        var out := t.ReadFrom(Max(offset, t.base));
        Regroup(yielded, out.value.records, ReadChain(state.segs, i + 1, offset));
        ReadChainAt(state.segs, i, offset);
        yielded := yielded + out.value.records;
        i := i + 1;
      }
      NothingLeft(state.segs, offset);
      assert yielded + [] == yielded;
      return Stream(yielded, None);
    }

    lemma SegmentIsValid(i: nat)
      requires Valid() && i < |segments|
      ensures segments[i].Valid() && segments[i].State() == state.segs[i]
      ensures segments[i].dir == dir && segments[i].maxBytes == maxSegmentBytes
      ensures dir.files[state.segs[i].base] == FileOf(segments[i].State())
    {
      hide EncodeAll, Stored, Total, IndexOf, PackEntries;
      BasesSorted(state.segs);
      FilesOfAt(state.segs);
    }
  }

  function Repaired(f: FileState, base: int): FileState {
    match Recover(f.bytes, base, INTERVAL_BYTES)
    case Ok(rec) => Truncated(f, rec.position)
    case Err(_) => f
  }

  /** The bases that an open goes through, in order. */
  function AllBases(names: seq<int>): seq<int> {
    if SortBases(names) == [] then [0] else SortBases(names)
  }

  /** The files after opening these bases in order: repaired, up to and with the first that cannot be opened. */
  ghost function TouchedFiles(files: map<int, FileState>, bases: seq<int>): map<int, FileState> {
    if bases == [] then files
    else
      var n := |bases| - 1;
      var front := TouchedFiles(files, bases[..n]);
      if OpenStates(files, bases[..n]).Err? then front
      else front[bases[n] := Repaired(FileAt(files, bases[n]), bases[n])]
  }

  /** Each file is as it was, or truncated to its good frames. */
  ghost predicate MerelyRepaired(before: map<int, FileState>, after: map<int, FileState>) {
    forall b :: b in before ==> b in after && (after[b] == before[b] || after[b] == Repaired(before[b], b))
  }

  ghost function IndexesOf(segments: seq<Segment>): set<Index> {
    set t | t in segments :: t.index
  }

  /** A segment object stands for a state. */
  ghost predicate Stands(dir: Directory, maxBytes: int, t: Segment, s: SegmentState)
    reads t, t.index
  {
    t.dir == dir && t.maxBytes == maxBytes && t.InMemory() && t.State() == s
  }

  ghost predicate Distinct(segments: seq<Segment>) {
    forall i, j :: 0 <= i < j < |segments| ==> segments[i] != segments[j] && segments[i].index != segments[j].index
  }

  /** These segment objects, on these files, stand for these states. */
  ghost predicate StandFor(dir: Directory, maxBytes: int, segments: seq<Segment>, states: seq<SegmentState>)
    reads segments, IndexesOf(segments)
  {
    && |segments| == |states|
    && (forall i {:trigger segments[i]} :: 0 <= i < |segments| ==>
          segments[i].index in IndexesOf(segments) && Stands(dir, maxBytes, segments[i], states[i]))
    && Distinct(segments)
  }

  ghost predicate OnDisk(files: map<int, FileState>, states: seq<SegmentState>) {
    forall i {:trigger states[i]} :: 0 <= i < |states| ==>
      && states[i].base in files && AllEncodable(states[i].records)
      && files[states[i].base] == FileOf(states[i])
  }

  ghost predicate NoneAt(states: seq<SegmentState>, base: int) {
    forall i {:trigger states[i]} :: 0 <= i < |states| ==> states[i].base != base
  }

  /** Opens one more segment beside those already open. */
  method OpenNext(dir: Directory, base: int, maxBytes: int, segments: seq<Segment>, ghost states: seq<SegmentState>)
    returns (out: Result<Segment>)
    requires FileAt(dir.files, base).synced <= |FileAt(dir.files, base).bytes|
    requires StandFor(dir, maxBytes, segments, states) && OnDisk(dir.files, states) && NoneAt(states, base)
    modifies dir
    ensures dir.files == if ValidLimit(maxBytes) then old(dir.files)[base := Repaired(FileAt(old(dir.files), base), base)]
                         else old(dir.files)
    ensures if !ValidLimit(maxBytes) then out == Err(ValueError)
            else match OpenState(FileAt(old(dir.files), base), base)
                 case Err(e) => out == Err(e)
                 case Ok(t) =>
                   && out.Ok? && fresh(out.value) && fresh(out.value.index)
                   && StandFor(dir, maxBytes, segments + [out.value], states + [t])
                   && OnDisk(dir.files, states + [t])
  {
    hide EncodeAll, Stored, Total, IndexOf, PackEntries, Recover, Encodable, FileOf;
    var staleIndex: seq<byte> := *;        // whatever the .index file holds
    out := Segment.Open(dir, base, maxBytes, staleIndex);
    if out.Ok? {
      hide FileAt, Repaired, OpenState;
      StandForSnoc(dir, maxBytes, segments, states, out.value);
      OnDiskSnoc(old(dir.files), dir.files, states, out.value.State());
    }
  }

  lemma StandForSnoc(dir: Directory, maxBytes: int, segments: seq<Segment>, states: seq<SegmentState>, t: Segment)
    requires StandFor(dir, maxBytes, segments, states)
    requires t.dir == dir && t.maxBytes == maxBytes && t.InMemory()
    requires forall i {:trigger segments[i]} :: 0 <= i < |segments| ==> segments[i] != t && segments[i].index != t.index
    ensures StandFor(dir, maxBytes, segments + [t], states + [t.State()])
  {
    hide SegmentInv, IndexOf, Total, PackEntries;
  }

  lemma OnDiskSnoc(before: map<int, FileState>, files: map<int, FileState>, states: seq<SegmentState>, t: SegmentState)
    requires OnDisk(before, states) && NoneAt(states, t.base) && SegmentInv(t)
    requires t.base in files && AllEncodable(t.records) ==> files[t.base] == FileOf(t)
    requires files.Keys >= before.Keys && t.base in files
    requires forall b :: b in before && b != t.base ==> files[b] == before[b]
    ensures OnDisk(files, states + [t])
  {
    hide FileOf, Encodable, Total;
  }

  lemma TouchedNext(files: map<int, FileState>, bases: seq<int>, i: nat)
    requires i < |bases| && OpenStates(files, bases[..i]).Ok?
    ensures TouchedFiles(files, bases[..i + 1])
         == TouchedFiles(files, bases[..i])[bases[i] := Repaired(FileAt(files, bases[i]), bases[i])]
  {
    hide OpenStates, Repaired;
    assert bases[..i + 1][..i] == bases[..i];
  }

  /** Nothing is touched after the first failure. */
  lemma {:induction false} TouchedFails(files: map<int, FileState>, bases: seq<int>, n: nat)
    requires n <= |bases| && OpenStates(files, bases[..n]).Err?
    ensures TouchedFiles(files, bases) == TouchedFiles(files, bases[..n])
  {
    hide OpenStates, Repaired;
    if n == |bases| {
      assert bases[..n] == bases;
    } else {
      var front := bases[..|bases| - 1];
      assert front[..n] == bases[..n];
      TouchedFails(files, front, n);
      OpenStatesFails(files, front, n);
    }
  }

  lemma {:induction false} TouchedMerely(files: map<int, FileState>, bases: seq<int>)
    requires Ascending(bases)
    ensures MerelyRepaired(files, TouchedFiles(files, bases))
    ensures forall b :: b !in bases ==> FileAt(TouchedFiles(files, bases), b) == FileAt(files, b)
  {
    hide OpenStates, Repaired;
    if bases == [] {
    } else {
      var n := |bases| - 1;
      TouchedMerely(files, bases[..n]);
      assert bases == bases[..n] + [bases[n]];
      assert bases[n] !in bases[..n];
    }
  }

  /** Opens the segments with these bases, in order, stopping at the first that fails. */
  method OpenSegments(dir: Directory, bases: seq<int>, maxBytes: int)
    returns (segments: seq<Segment>, ghost states: seq<SegmentState>, failed: Option<Error>)
    requires bases != [] && Ascending(bases) && SoundFiles(dir.files)
    modifies dir
    ensures forall b :: b in dir.files ==> b in old(dir.files) || b in bases
    ensures dir.files == if ValidLimit(maxBytes) then TouchedFiles(old(dir.files), bases) else old(dir.files)
    ensures if !ValidLimit(maxBytes) then failed == Some(ValueError)
            else match OpenStates(old(dir.files), bases)
                 case Err(e) => failed == Some(e)
                 case Ok(ss) => failed == None && states == ss
    ensures failed == None ==>
              && |segments| == |states| == |bases|
              && StandFor(dir, maxBytes, segments, states) && OnDisk(dir.files, states)
              && fresh(segments) && fresh(IndexesOf(segments))
  {
    hide StandFor, OnDisk, Repaired, OpenState, OpenStates, TouchedFiles;
    OpenStatesNone(dir.files);
    segments, states, failed := [], [], None;
    NothingOpen(dir, maxBytes);
    for i := 0 to |bases|
      invariant failed == None && |segments| == |states| == i
      invariant i > 0 ==> ValidLimit(maxBytes)
      invariant OpenStates(old(dir.files), bases[..i]) == Ok(states)
      invariant StandFor(dir, maxBytes, segments, states) && OnDisk(dir.files, states)
      invariant fresh(segments) && fresh(IndexesOf(segments))
      invariant forall b :: b in dir.files ==> b in old(dir.files) || b in bases
      invariant dir.files == TouchedFiles(old(dir.files), bases[..i])
      invariant forall b :: b !in bases[..i] ==> FileAt(dir.files, b) == FileAt(old(dir.files), b)
    {
      assert bases[i] !in bases[..i];
      BasesOfStates(old(dir.files), bases, i);
      OpenStatesNext(old(dir.files), bases, i);
      TouchedNext(old(dir.files), bases, i);
      var out := OpenNext(dir, bases[i], maxBytes, segments, states);
      if out.Err? {
        failed := Some(out.error);
        if ValidLimit(maxBytes) {
          OpenStatesFails(old(dir.files), bases, i + 1);
          TouchedFails(old(dir.files), bases, i + 1);
        }
        return;
      }
      assert IndexesOf(segments + [out.value]) == IndexesOf(segments) + {out.value.index};
      segments := segments + [out.value];
      states := states + [OpenState(FileAt(old(dir.files), bases[i]), bases[i]).value];
    }
    assert bases[..|bases|] == bases;
  }

  lemma NothingOpen(dir: Directory, maxBytes: int)
    ensures StandFor(dir, maxBytes, [], []) && OnDisk(dir.files, [])
  {
  }

  lemma NothingRepaired(files: map<int, FileState>)
    ensures MerelyRepaired(files, files)
  {
  }

  lemma OpenStatesNone(files: map<int, FileState>)
    ensures OpenStates(files, []) == Ok([]) && TouchedFiles(files, []) == files
  {
  }

  lemma OpenStatesNext(files: map<int, FileState>, bases: seq<int>, i: nat)
    requires i < |bases| && OpenStates(files, bases[..i]).Ok?
    ensures OpenStates(files, bases[..i + 1]) ==
              match OpenState(FileAt(files, bases[i]), bases[i])
              case Err(e) => Err(e)
              case Ok(t) => Ok(OpenStates(files, bases[..i]).value + [t])
  {
    hide OpenState;
    assert bases[..i + 1][..i] == bases[..i];
  }

  lemma BasesOfStates(files: map<int, FileState>, bases: seq<int>, i: nat)
    requires Ascending(bases) && i < |bases| && OpenStates(files, bases[..i]).Ok?
    ensures NoneAt(OpenStates(files, bases[..i]).value, bases[i])
  {
    hide OpenState, OpenStates, AllInv, AllIndexable;
    OpenedSegments(files, bases[..i]);
  }

  /** Do consecutive segments follow one another? */
  method ChainCheck(dir: Directory, maxBytes: int, segments: seq<Segment>, ghost states: seq<SegmentState>)
    returns (linked: bool)
    requires StandFor(dir, maxBytes, segments, states)
    ensures linked <==> Linked(states)
  {
    hide SegmentInv, IndexOf, Total, PackEntries, AllPackable;
    var i := 1;
    while i < |segments|
      invariant 1 <= i
      invariant forall j {:trigger states[j]} :: 0 < j < |segments| && j < i ==> Segments.NextOffset(Before(states, j)) == states[j].base
    {
      assert Before(states, i) == segments[i - 1].State();
      assert segments[i].State() == states[i];
      if segments[i].base != segments[i - 1].nextOffset {
        return false;
      }
      i := i + 1;
    }
    return true;
  }

  lemma OpenedBases(files: map<int, FileState>, bases: seq<int>)
    requires OpenStates(files, bases).Ok?
    ensures var states := OpenStates(files, bases).value;
            Bases(states) == bases && Bases(SealFront(states)) == bases
  {
    hide OpenState, SealFront;
    OpenedSegments(files, bases);
    SealFrontAt(OpenStates(files, bases).value);
  }

  lemma OnDiskHas(files: map<int, FileState>, states: seq<SegmentState>)
    requires OnDisk(files, states)
    ensures forall b :: b in Bases(states) ==> b in files
  {
    hide FileOf, AllEncodable;
    forall b | b in Bases(states)
      ensures b in files
    {
      var i :| 0 <= i < |states| && Bases(states)[i] == b;
      assert states[i].base == b;
    }
  }

  lemma OnDiskUpdate(before: map<int, FileState>, files: map<int, FileState>, states: seq<SegmentState>, i: nat, t: SegmentState)
    requires OnDisk(before, states) && Ascending(Bases(states)) && i < |states|
    requires t.base == states[i].base && AllEncodable(t.records)
    requires files == before[t.base := FileOf(t)]
    ensures OnDisk(files, states[i := t])
  {
    hide FileOf, AllEncodable;
    forall j {:trigger states[j]} | 0 <= j < |states| && j != i
      ensures states[j].base != states[i].base
    {
      assert Bases(states)[j] != Bases(states)[i];
    }
  }

  /** Only one of several segments changes; it stands for a new state, the others for theirs. */
  method CloseOne(dir: Directory, maxBytes: int, segments: seq<Segment>, ghost states: seq<SegmentState>, i: nat)
    requires StandFor(dir, maxBytes, segments, states) && i < |segments| && segments[i].Valid()
    modifies dir, segments[i], segments[i].index
    ensures StandFor(dir, maxBytes, segments, states[i := Seal(states[i])])
    ensures AllEncodable(states[i].records)
    ensures dir.files == old(dir.files)[states[i].base := FileOf(Seal(states[i]))]
  {
    hide SegmentInv, Segment.InMemory, FileOf, AllEncodable, Total, EncodeAll;
    assert Stands(dir, maxBytes, segments[i], states[i]);
    segments[i].Close();
    HoldsEncodable(segments[i]);
    OthersStand(dir, maxBytes, segments, states, i);
  }

  method SyncOne(dir: Directory, maxBytes: int, segments: seq<Segment>, ghost states: seq<SegmentState>, i: nat)
    returns (r: Result<()>)
    requires StandFor(dir, maxBytes, segments, states) && i < |segments| && segments[i].Valid()
    modifies dir, segments[i], segments[i].index
    ensures r == if states[i].open then Ok(()) else Err(ValueError)
    ensures var t := if states[i].open then Flush(states[i]) else states[i];
            && StandFor(dir, maxBytes, segments, states[i := t])
            && AllEncodable(t.records)
            && dir.files == old(dir.files)[t.base := FileOf(t)]
  {
    hide SegmentInv, Segment.InMemory, FileOf, AllEncodable, Total, EncodeAll;
    assert Stands(dir, maxBytes, segments[i], states[i]);
    assert segments[i].open == states[i].open;
    r := segments[i].Sync();
    HoldsEncodable(segments[i]);
    OthersStand(dir, maxBytes, segments, states, i);
  }

  method AppendOne(dir: Directory, maxBytes: int, segments: seq<Segment>, ghost states: seq<SegmentState>, i: nat,
                   record: Record)
    returns (r: Result<nat>)
    requires StandFor(dir, maxBytes, segments, states) && i < |segments| && segments[i].Valid()
    modifies dir, segments[i], segments[i].index
    ensures var (t, out) := AppendTo(states[i], record);
            && r == out
            && StandFor(dir, maxBytes, segments, states[i := t])
            && AllEncodable(t.records)
            && dir.files == old(dir.files)[t.base := FileOf(t)]
  {
    hide SegmentInv, Segment.InMemory, FileOf, AllEncodable, AppendTo;
    assert Stands(dir, maxBytes, segments[i], states[i]);
    r := segments[i].Append(record);
    HoldsEncodable(segments[i]);
    OthersStand(dir, maxBytes, segments, states, i);
  }

  lemma BasesStand(dir: Directory, maxBytes: int, segments: seq<Segment>, states: seq<SegmentState>)
    requires StandFor(dir, maxBytes, segments, states)
    ensures |segments| == |states| && forall i :: 0 <= i < |segments| ==> segments[i].base == states[i].base
  {
    hide SegmentInv;
    forall i | 0 <= i < |segments|
      ensures segments[i].base == states[i].base
    {
      assert Stands(dir, maxBytes, segments[i], states[i]);
    }
  }

  lemma HoldsEncodable(t: Segment)
    requires t.Valid()
    ensures AllEncodable(t.State().records)
  {
    hide Encodable;
  }

  lemma OthersStand(dir: Directory, maxBytes: int, segments: seq<Segment>, states: seq<SegmentState>, i: nat)
    requires |segments| == |states| && i < |segments| && Distinct(segments)
    requires forall j {:trigger segments[j]} :: 0 <= j < |segments| && j != i ==>
               segments[j].index in IndexesOf(segments) && Stands(dir, maxBytes, segments[j], states[j])
    requires segments[i].dir == dir && segments[i].maxBytes == maxBytes && segments[i].Valid()
    ensures StandFor(dir, maxBytes, segments, states[i := segments[i].State()])
  {
    hide SegmentInv;
  }

  method SealAllButTail(dir: Directory, maxBytes: int, segments: seq<Segment>, ghost states: seq<SegmentState>)
    requires StandFor(dir, maxBytes, segments, states) && OnDisk(dir.files, states)
    requires Ascending(Bases(states)) && segments != []
    modifies dir, segments, IndexesOf(segments)
    ensures StandFor(dir, maxBytes, segments, SealFront(states)) && OnDisk(dir.files, SealFront(states))
    ensures dir.files.Keys == old(dir.files).Keys
  {
    hide OnDisk, Seal;
    ghost var now := states;
    for i := 0 to |segments| - 1
      invariant |now| == |segments|
      invariant forall j :: 0 <= j < |now| ==> now[j] == if j < i then Seal(states[j]) else states[j]
      invariant StandFor(dir, maxBytes, segments, now) && OnDisk(dir.files, now)
      invariant dir.files.Keys == old(dir.files).Keys
    {
      SealBases(states, now);
      ghost var before := dir.files;
      StandsOnDisk(dir, maxBytes, segments, now, i);
      CloseOne(dir, maxBytes, segments, now, i);
      OnDiskUpdate(before, dir.files, now, i, Seal(now[i]));
      now := now[i := Seal(now[i])];
    }
    SealFrontAt(states);
    assert now == SealFront(states);
  }

  lemma StandsOnDisk(dir: Directory, maxBytes: int, segments: seq<Segment>, states: seq<SegmentState>, i: nat)
    requires StandFor(dir, maxBytes, segments, states) && OnDisk(dir.files, states) && i < |segments|
    ensures segments[i].Valid()
  {
    hide SegmentInv;
    assert Stands(dir, maxBytes, segments[i], states[i]);
    assert states[i].base in dir.files;
  }

  lemma SealBases(states: seq<SegmentState>, now: seq<SegmentState>)
    requires |now| == |states|
    requires forall j :: 0 <= j < |now| ==> now[j] == states[j] || now[j] == Seal(states[j])
    ensures Bases(now) == Bases(states)
  {
    hide Total;
    assert forall j | 0 <= j < |now| :: Bases(now)[j] == now[j].base == states[j].base;
  }

  lemma NoRecordsNoBytes(t: SegmentState)
    ensures Position(t) == 0 <==> t.records == []
  {
    if Position(t) == 0 {
      ZeroTotal(t.records);
    }
  }

  lemma RolledHasRoom(s: LogState, record: Record)
    requires LogInv(s)
    ensures HasRoom(Tail(RollLog(s)), s.maxBytes, record)
    ensures LogNext(RollLog(s)) == LogNext(s)
  {
    hide Total, LogInv, RollLog;
    RollKeepsChain(s);
  }

  lemma RoomyAppendKeeps(s: LogState, record: Record)
    requires LogInv(s) && record.offset == LogNext(s) && HasRoom(Tail(s), s.maxBytes, record)
    ensures var t := AppendTo(Tail(s), record).0;
            SegmentInv(t) && t.base == Tail(s).base && LogInv(WithTail(s, t))
  {
    hide Encode, Extend, Stored, Total, Indexable, Size, Linked, Sealed;
    assert SegmentInv(Tail(s));
    RoomyAppendTo(Tail(s), s.maxBytes, record);
    TailKeepsChain(s, AppendTo(Tail(s), record).0);
  }

  function WithNewTail(s: LogState): LogState
    requires s.segs != []
  {
    s.(segs := s.segs + [SegmentState(LogNext(s), [], 0, true)])
  }

  lemma WithNewTailKeeps(s: LogState)
    requires LogInv(s) && !Tail(s).open && Tail(s).records != []
    ensures LogInv(WithNewTail(s))
    ensures AllInv(s.segs) && FileAt(FilesOf(s.segs), LogNext(s)) == FileState([], 0)
    ensures Recover([], LogNext(s), INTERVAL_BYTES) == Ok(Recovered([], 0, []))
    ensures AllInv(WithNewTail(s).segs)
    ensures FilesOf(WithNewTail(s).segs) == FilesOf(s.segs)[LogNext(s) := FileState([], 0)]
  {
    hide Encodable, Stored, Indexable, Recover, FilesOf, Linked, Sealed;
    NewTailKeepsChain(s);
    if Position(Tail(s)) == 0 {
      ZeroTotal(Tail(s).records);
    }
    NextBaseIsFree(s);
    RecoverNothing(LogNext(s));
    EmptySegmentInv(LogNext(s));
    NewTailFile(s, SegmentState(LogNext(s), [], 0, true));
  }

  lemma SealTailKeeps(s: LogState)
    requires LogInv(s)
    ensures SegmentInv(Seal(Tail(s)))
    ensures LogInv(WithTail(s, Seal(Tail(s))))
  {
    hide Encodable, Stored, Total, Indexable;
    assert SegmentInv(Tail(s));
    TailKeepsChain(s, Seal(Tail(s)));
  }
}
