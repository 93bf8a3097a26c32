/**
 Threads that append to one log, roll it, sync it and close it, under its lock.

 A step is what one thread does between two points where another may run. The
 bytes of a record become visible in the file a few at a time. Only acquiring
 looks at the lock; that the other steps exclude one another is proved.
 */
module Appenders {
  import opened Bytes
  import opened Records
  import opened Frames
  import opened Indexes
  import opened Recovery
  import opened Segments
  import opened Chains

  /**
   A segment as threads share it: the counters and entries in memory, the bytes
   that can be read from the file, how many of them are durable, and whether
   there still is a handle to write with. `records` is history, which no step
   reads: the records whose writing has begun.
   */
  datatype Seg = Seg(base: int, next: int, position: nat, bytes: seq<byte>, synced: nat, open: bool,
                     entries: seq<Entry>, records: seq<Record>)

  datatype Request =
    | AppendRequest(key: Option<seq<byte>>, value: Option<seq<byte>>, timestamp: int)
    | RollRequest
    | SyncRequest
    | CloseRequest

  /** The record an append request asks for, at an offset. */
  function RecordFor(request: Request, offset: int): Record
    requires request.AppendRequest?
  {
    Record(offset, request.timestamp, request.key, request.value)
  }

  /** Where the thread that serves one call is. */
  datatype Thread =
    | Waiting(request: Request)                                              // for the lock
    | Entered(request: Request)
    | Claimed(request: Request, record: Record)                              // has taken the next offset
    | Sealing(request: Request, after: Option<Record>)                       // has closed the tail, to make a new one
    | Ready(request: Request, record: Record)
    | Writing(request: Request, record: Record, target: nat, rest: seq<byte>)// `rest` is not visible yet
    | Leaving(request: Request, outcome: Result<Option<Record>>)
    | Returned(request: Request, result: Result<Option<int>>)                // what the caller got: an append, its offset

  /** An acknowledged record, and the call it was appended for. */
  datatype Ack = Ack(thread: nat, record: Record)

  /**
   `before`, `acked` and `closed` are history: the records held at first, those
   acknowledged since, in lock order, and whether the log has ever been closed.
   */
  datatype Writers = Writers(maxBytes: int, segs: seq<Seg>, lock: Option<nat>, threads: map<nat, Thread>,
                             before: seq<Record>, acked: seq<Ack>, closed: bool)

  datatype Step =
    | Arrive(t: nat, request: Request)
    | Acquire(t: nat)
    | Claim(t: nat)
    | Place(t: nat)
    | Grow(t: nat)
    | Begin(t: nat)
    | WriteSome(t: nat, n: nat)
    | Finish(t: nat)
    | Release(t: nat)

  predicate At(w: Writers, t: nat, p: Thread -> bool) {
    t in w.threads && p(w.threads[t])
  }

  predicate Enabled(w: Writers, step: Step) {
    w.segs != [] &&
    match step
    case Arrive(t, _) => t !in w.threads
    case Acquire(t) => At(w, t, (p: Thread) => p.Waiting?) && w.lock == None
    case Claim(t) => At(w, t, (p: Thread) => p.Entered?)
    case Place(t) => At(w, t, (p: Thread) => p.Claimed?)
    case Grow(t) => At(w, t, (p: Thread) => p.Sealing?)
    case Begin(t) => At(w, t, (p: Thread) => p.Ready?)
    case WriteSome(t, n) =>
      At(w, t, (p: Thread) => p.Writing?) && w.threads[t].target < |w.segs| && n <= |w.threads[t].rest|
    case Finish(t) =>
      At(w, t, (p: Thread) => p.Writing?) && w.threads[t].target < |w.segs| && w.threads[t].rest == []
    case Release(t) => At(w, t, (p: Thread) => p.Leaving?)
  }

  function Active(w: Writers): Seg
    requires w.segs != []
  {
    w.segs[|w.segs| - 1]
  }

  function Now(w: Writers, t: nat, p: Thread): Writers {
    w.(threads := w.threads[t := p])
  }

  function WithSeg(w: Writers, i: nat, s: Seg): Writers
    requires i < |w.segs|
  {
    w.(segs := w.segs[i := s])
  }

  predicate Roomy(s: Seg, maxBytes: int, r: Record) {
    s.position == 0 || s.position + Size(r) <= maxBytes
  }

  function WithActive(w: Writers, s: Seg): Writers
    requires w.segs != []
  {
    WithSeg(w, |w.segs| - 1, s)
  }

  function Synced(s: Seg): Seg {
    s.(synced := |s.bytes|)
  }

  /** Closing a segment syncs it first; one that is closed stays as it is. */
  function Shut(s: Seg): Seg {
    if s.open then Synced(s).(open := false) else s
  }

  function ShutAll(segs: seq<Seg>): (shut: seq<Seg>)
    ensures |shut| == |segs|
    ensures forall i :: 0 <= i < |segs| ==> shut[i] == Shut(segs[i])
  {
    seq(|segs|, i requires 0 <= i < |segs| => Shut(segs[i]))
  }

  /** The first step inside the lock; a sync and a close need no other. */
  function Claiming(w: Writers, t: nat, request: Request): Writers
    requires w.segs != []
  {
    var s := Active(w);
    match request
    case AppendRequest(_, _, _) => Now(w, t, Claimed(request, RecordFor(request, s.next)))
    case RollRequest =>
      if s.position == 0 then Now(w, t, Leaving(request, Ok(None)))
      else Now(WithActive(w, Shut(s)), t, Sealing(request, None))
    case SyncRequest =>
      if s.open then Now(WithActive(w, Synced(s)), t, Leaving(request, Ok(None)))
      else Now(w, t, Leaving(request, Err(ValueError)))             // flush of a closed file
    case CloseRequest => Now(w.(segs := ShutAll(w.segs), closed := true), t, Leaving(request, Ok(None)))
  }

  function Placing(w: Writers, t: nat, request: Request, record: Record): Writers
    requires w.segs != []
  {
    var s := Active(w);
    if Roomy(s, w.maxBytes, record) then Now(w, t, Ready(request, record))
    else Now(WithActive(w, Shut(s)), t, Sealing(request, Some(record)))
  }

  function NewSeg(base: int): Seg {
    Seg(base, base, 0, [], 0, true, [], [])
  }

  /** The append to the active segment starts, unless a check, the encoding or a closed file refuses the record. */
  function Beginning(w: Writers, t: nat, request: Request, record: Record): Writers
    requires w.segs != []
  {
    var s := Active(w);
    if record.offset != s.next then
      Now(w, t, Leaving(request, Err(ValueError)))
    else
      match Encode(record)
      case Err(e) => Now(w, t, Leaving(request, Err(e)))
      case Ok(frame) =>
        if !s.open then Now(w, t, Leaving(request, Err(ValueError)))
        else Now(WithActive(w, s.(records := s.records + [record])), t, Writing(request, record, |w.segs| - 1, frame))
  }

  /** All bytes are out: the segment counts the record and feeds its index. */
  function Finishing(w: Writers, t: nat, request: Request, record: Record, i: nat): Writers
    requires i < |w.segs|
  {
    var s := w.segs[i];
    if |s.bytes| != s.position + Size(record) then
      Now(w, t, Leaving(request, Err(RuntimeError)))         // another writer?
    else
      match Extend(s.entries, s.base, INTERVAL_BYTES, record.offset, s.position)
      case Ok(es) =>
        Now(WithSeg(w, i, s.(next := s.next + 1, position := |s.bytes|, entries := es)), t, Leaving(request, Ok(Some(record))))
      case Err(e) =>
        Now(WithSeg(w, i, s.(next := s.next + 1, position := |s.bytes|)), t, Leaving(request, Err(e)))
  }

  function Next(w: Writers, step: Step): Writers
    requires Enabled(w, step)
  {
    match step
    case Arrive(t, request) => Now(w, t, Waiting(request))
    case Acquire(t) => Now(w, t, Entered(w.threads[t].request)).(lock := Some(t))
    case Claim(t) => Claiming(w, t, w.threads[t].request)
    case Place(t) => Placing(w, t, w.threads[t].request, w.threads[t].record)
    case Grow(t) =>
      var p := w.threads[t];
      Now(w.(segs := w.segs + [NewSeg(Active(w).next)]), t,
          if p.after.Some? then Ready(p.request, p.after.value) else Leaving(p.request, Ok(None)))
    case Begin(t) => Beginning(w, t, w.threads[t].request, w.threads[t].record)
    case WriteSome(t, n) =>
      var p := w.threads[t];
      var s := w.segs[p.target];
      Now(WithSeg(w, p.target, s.(bytes := s.bytes + p.rest[..n])), t, p.(rest := p.rest[n..]))
    case Finish(t) =>
      var p := w.threads[t];
      Finishing(w, t, p.request, p.record, p.target)
    case Release(t) =>
      var p := w.threads[t];
      var v := Now(w, t, Returned(p.request, Answer(p.outcome))).(lock := None);
      if p.outcome.Ok? && p.outcome.value.Some? then v.(acked := w.acked + [Ack(t, p.outcome.value.value)]) else v
  }

  /** What a caller is told: of an appended record, its offset. */
  function Answer(outcome: Result<Option<Record>>): Result<Option<int>> {
    match outcome
    case Ok(Some(record)) => Ok(Some(record.offset))
    case Ok(None) => Ok(None)
    case Err(e) => Err(e)
  }

  // --------------------------------------------------------------- invariant

  predicate InCritical(p: Thread) {
    !p.Waiting? && !p.Returned?
  }

  /** Mutual exclusion: a thread is inside exactly when it holds the lock. */
  ghost predicate LockInv(w: Writers) {
    && (w.lock.Some? ==> w.lock.value in w.threads)
    && (forall t :: t in w.threads ==> (InCritical(w.threads[t]) <==> w.lock == Some(t)))
  }

  /** What the thread inside the lock is doing. */
  function Holder(w: Writers): Option<Thread> {
    if w.lock.Some? && w.lock.value in w.threads then Some(w.threads[w.lock.value]) else None
  }

  /** Nothing of the segment is on its way: memory and file agree. */
  ghost predicate Complete(s: Seg) {
    && Stored(s.records, s.base) && Indexable(s.records, s.base, INTERVAL_BYTES)
    && s.bytes == EncodeAll(s.records)
    && s.next == s.base + |s.records|
    && s.position == Total(s.records)
    && s.entries == IndexOf(s.records, s.base, INTERVAL_BYTES)
    && s.synced <= s.position && (!s.open ==> s.synced == s.position)
  }

  function Front<T>(s: seq<T>): seq<T>
    requires s != []
  {
    s[..|s| - 1]
  }

  /** One record is on its way, all but `rest` of it visible; memory does not count it yet. */
  ghost predicate Partial(s: Seg, maxBytes: int, record: Record, rest: seq<byte>) {
    && s.records != [] && s.records[|s.records| - 1] == record
    && Stored(s.records, s.base) && Indexable(Front(s.records), s.base, INTERVAL_BYTES)
    && s.bytes + rest == EncodeAll(s.records)
    && |s.bytes| >= s.position
    && s.next == s.base + |Front(s.records)|
    && s.position == Total(Front(s.records))
    && s.entries == IndexOf(Front(s.records), s.base, INTERVAL_BYTES)
    && s.open && s.synced <= s.position
    && Roomy(s, maxBytes, record)
  }

  /** Nothing on its way; a closed tail has been closed with its log. */
  ghost predicate Settled(s: Seg, closed: bool) {
    Complete(s) && (s.open || closed)
  }

  ghost predicate TailInv(w: Writers)
    requires w.segs != []
  {
    var s := Active(w);
    match Holder(w)
    case Some(Writing(_, record, target, rest)) => target == |w.segs| - 1 && Partial(s, w.maxBytes, record, rest)
    case Some(Claimed(_, record)) => Settled(s, w.closed) && record.offset == s.next
    case Some(Ready(_, record)) => Settled(s, w.closed) && record.offset == s.next && Roomy(s, w.maxBytes, record)
    case Some(Sealing(_, after)) =>
      Complete(s) && !s.open && s.position != 0 && (after.Some? ==> after.value.offset == s.next)
    case _ => Settled(s, w.closed)
  }

  /** The segment as a value, the record on its way included. */
  function View(s: Seg): SegmentState {
    SegmentState(s.base, s.records, s.synced, s.open)
  }

  function Views(segs: seq<Seg>): (views: seq<SegmentState>)
    ensures |views| == |segs|
    ensures forall i :: 0 <= i < |segs| ==> views[i] == View(segs[i])
  {
    seq(|segs|, i requires 0 <= i < |segs| => View(segs[i]))
  }

  /** The chain: linked, every segment before the tail complete, closed and not empty. */
  ghost predicate SegsInv(segs: seq<Seg>) {
    && segs != []
    && Linked(Views(segs))
    && (forall i :: 0 <= i < |segs| ==> SegmentInv(View(segs[i])))
    && (forall i :: 0 <= i < |segs| - 1 ==> Complete(segs[i]) && segs[i].records != [] && !segs[i].open)
  }

  /** The record written, or being written, that is not acknowledged yet. */
  function InFlight(w: Writers): seq<Record> {
    match Holder(w)
    case Some(Writing(_, record, _, _)) => [record]
    case Some(Leaving(_, Ok(Some(record)))) => [record]
    case _ => []
  }

  function RecordsOf(acked: seq<Ack>): (rs: seq<Record>)
    ensures |rs| == |acked| && forall i :: 0 <= i < |acked| ==> rs[i] == acked[i].record
  {
    seq(|acked|, i requires 0 <= i < |acked| => acked[i].record)
  }

  /** The log holds what it held at first, every acknowledged record in order, and the one in flight. */
  ghost predicate AckInv(w: Writers) {
    AllRecords(Views(w.segs)) == w.before + RecordsOf(w.acked) + InFlight(w)
  }

  ghost predicate WritersInv(w: Writers) {
    && ValidLimit(w.maxBytes)
    && SegsInv(w.segs)
    && LockInv(w)
    && TailInv(w)
    && AckInv(w)
  }

  /** How the shared segments may change under a reader's feet; one that is closed does not change at all. */
  ghost predicate Grows(segs: seq<Seg>, more: seq<Seg>) {
    && |segs| <= |more|
    && (forall i :: 0 <= i < |segs| ==>
          more[i].base == segs[i].base && segs[i].records <= more[i].records && segs[i].bytes <= more[i].bytes
          && segs[i].synced <= more[i].synced)
    && (forall i :: 0 <= i < |segs| && (i < |segs| - 1 || !segs[i].open) ==> more[i] == segs[i])
    && AllRecords(Views(segs)) <= AllRecords(Views(more))
  }

  // ------------------------------------------------------------------- steps

  lemma SameGrows(segs: seq<Seg>)
    ensures Grows(segs, segs)
  {
  }

  /** The tail replaced by one with no fewer records and bytes. */
  lemma TailChanges(segs: seq<Seg>, s: Seg)
    requires SegsInv(segs)
    requires var tail := segs[|segs| - 1];
             && s.base == tail.base && tail.records <= s.records && tail.bytes <= s.bytes && tail.synced <= s.synced
             && (!tail.open ==> s == tail)
             && SegmentInv(View(s))
    ensures SegsInv(segs[|segs| - 1 := s]) && Grows(segs, segs[|segs| - 1 := s])
    ensures s.records == segs[|segs| - 1].records ==> AllRecords(Views(segs[|segs| - 1 := s])) == AllRecords(Views(segs))
  {
    hide SegmentInv, View, Complete, Linked, AllRecords, Views;
    TailLinked(segs, s);
    TailRecords(segs, s);
    assert AllRecords(Views(segs)) + [] == AllRecords(Views(segs));
  }

  lemma TailLinked(segs: seq<Seg>, s: Seg)
    requires segs != [] && Linked(Views(segs)) && s.base == segs[|segs| - 1].base
    ensures Linked(Views(segs[|segs| - 1 := s]))
  {
    hide Total, Views;
    var more := segs[|segs| - 1 := s];
    forall i | 0 < i < |more|
      ensures NextOffset(Before(Views(more), i)) == Views(more)[i].base
    {
      assert Before(Views(more), i) == Before(Views(segs), i);
      assert Views(segs)[i].base == segs[i].base && Views(more)[i].base == more[i].base;
    }
  }

  lemma TailRecords(segs: seq<Seg>, s: Seg)
    requires segs != [] && segs[|segs| - 1].records <= s.records
    ensures AllRecords(Views(segs[|segs| - 1 := s]))
         == AllRecords(Views(segs)) + s.records[|segs[|segs| - 1].records|..]
  {
    hide Total, AllRecords, Views;
    var n := |segs| - 1;
    assert Views(segs) == Views(segs[..n]) + [View(segs[n])];
    assert Views(segs[n := s]) == Views(segs[..n]) + [View(s)];
    AllRecordsSnoc(Views(segs[..n]), View(segs[n]));
    AllRecordsSnoc(Views(segs[..n]), View(s));
  }

  lemma NewTail(segs: seq<Seg>, next: int)
    requires SegsInv(segs) && Complete(segs[|segs| - 1]) && segs[|segs| - 1].records != [] && !segs[|segs| - 1].open
    requires next == segs[|segs| - 1].next
    ensures SegsInv(segs + [NewSeg(next)]) && Grows(segs, segs + [NewSeg(next)])
    ensures Complete(NewSeg(next))
    ensures AllRecords(Views(segs + [NewSeg(next)])) == AllRecords(Views(segs))
  {
    hide SegmentInv, View, Linked, AllRecords, Views, Complete;
    EmptyComplete(next);
    CompleteStored(segs[|segs| - 1]);
    NewTailLinked(segs, next);
    NewTailRecords(segs, next);
    CompleteStored(NewSeg(next));
  }

  lemma NewTailLinked(segs: seq<Seg>, next: int)
    requires segs != [] && Linked(Views(segs)) && next == segs[|segs| - 1].base + |segs[|segs| - 1].records|
    ensures Linked(Views(segs + [NewSeg(next)]))
  {
    hide Total, Views;
    var more := segs + [NewSeg(next)];
    forall i | 0 < i < |more|
      ensures NextOffset(Before(Views(more), i)) == Views(more)[i].base
    {
      if i < |segs| {
        assert Before(Views(more), i) == Before(Views(segs), i);
        assert Views(segs)[i].base == segs[i].base && Views(more)[i].base == more[i].base;
      }
    }
  }

  lemma NewTailRecords(segs: seq<Seg>, next: int)
    ensures AllRecords(Views(segs + [NewSeg(next)])) == AllRecords(Views(segs))
  {
    hide Total, AllRecords, Views;
    assert Views(segs + [NewSeg(next)]) == Views(segs) + [View(NewSeg(next))];
    AllRecordsSnoc(Views(segs), View(NewSeg(next)));
    assert AllRecords(Views(segs)) + [] == AllRecords(Views(segs));
  }

  lemma EmptyComplete(base: int)
    ensures Complete(NewSeg(base))
  {
  }

  /** A thread inside the lock is the holder. */
  lemma InsideHolds(w: Writers, t: nat)
    requires LockInv(w) && t in w.threads && InCritical(w.threads[t])
    ensures w.lock == Some(t) && Holder(w) == Some(w.threads[t])
  {
  }

  lemma LockKept(w: Writers, step: Step)
    requires LockInv(w) && Enabled(w, step)
    ensures LockInv(Next(w, step))
  {
    hide Next, Enabled, InCritical;
    ActorMoves(w, step);
    LockMoves(w, step);
  }

  lemma LockMoves(w: Writers, step: Step)
    requires Enabled(w, step)
    ensures var v := Next(w, step);
            && v.lock == (if step.Acquire? then Some(step.t) else if step.Release? then None else w.lock)
            && step.t in v.threads && (InCritical(v.threads[step.t]) <==> !step.Arrive? && !step.Release?)
    ensures step.t in w.threads <==> !step.Arrive?
    ensures step.t in w.threads ==> (InCritical(w.threads[step.t]) <==> !step.Acquire?)
    ensures step.Acquire? ==> w.lock == None
  {
    hide Encode, Extend, Roomy, Shut, Synced, ShutAll, Answer;
  }

  lemma BeginningPartial(s: Seg, maxBytes: int, record: Record)
    requires Complete(s) && s.open && record.offset == s.next && Roomy(s, maxBytes, record) && Encode(record).Ok?
    ensures Partial(s.(records := s.records + [record]), maxBytes, record, Encode(record).value)
  {
    hide EncodeAll, Total, Indexable, Encode, Size;
    var rs := s.records + [record];
    assert Front(rs) == s.records;
    EncodableIff(record);
    EncodeSnoc(s.records, record);
    EncodeAllLength(s.records);
  }

  lemma WritingPartial(s: Seg, maxBytes: int, record: Record, rest: seq<byte>, n: nat)
    requires Partial(s, maxBytes, record, rest) && n <= |rest|
    ensures Partial(s.(bytes := s.bytes + rest[..n]), maxBytes, record, rest[n..])
  {
    hide EncodeAll, Total, Indexable, Stored;
    assert (s.bytes + rest[..n]) + rest[n..] == s.bytes + rest;
  }

  /** When the last byte is out, no guard trips and the segment is complete again. */
  lemma FinishingCompletes(s: Seg, maxBytes: int, record: Record)
    requires ValidLimit(maxBytes) && Partial(s, maxBytes, record, [])
    ensures |s.bytes| == s.position + Size(record)
    ensures var fed := Extend(s.entries, s.base, INTERVAL_BYTES, record.offset, s.position);
            && fed.Ok?
            && Complete(s.(next := s.next + 1, position := |s.bytes|, entries := fed.value))
    ensures record.offset == s.next
  {
    hide EncodeAll, Total, Indexable, Extend, IndexOf, Size, Encodable;
    var front := Front(s.records);
    assert s.records == front + [record];
    assert s.bytes + [] == s.bytes;
    EncodeAllLength(s.records);
    EncodeSnocTotal(front, record);
    FrontStored(s.records, s.base);
    var t := SegmentState(s.base, front, 0, true);
    RoomyAppendTo(t, maxBytes, record);
    LastEncodes(s.records, s.base);
    IndexSnoc(front, record, s.base, INTERVAL_BYTES);
  }

  lemma FrontStored(rs: seq<Record>, base: int)
    requires rs != [] && Stored(rs, base)
    ensures Stored(Front(rs), base)
  {
    hide Encodable;
  }

  lemma LastEncodes(rs: seq<Record>, base: int)
    requires rs != [] && Stored(rs, base)
    ensures Encode(rs[|rs| - 1]).Ok? && Encodable(rs[|rs| - 1])
  {
  }

  lemma StepBegin(w: Writers, t: nat)
    requires WritersInv(w) && Enabled(w, Begin(t))
    ensures WritersInv(Next(w, Begin(t))) && Grows(w.segs, Next(w, Begin(t)).segs)
  {
    hide AllRecords, Views, Encode, SegsInv, Complete, Partial, Grows, LockInv;
    InsideHolds(w, t);
    LockKept(w, Begin(t));
    var record, s := w.threads[t].record, Active(w);
    SameGrows(w.segs);
    if Encode(record).Ok? && s.open {
      BeginningPartial(s, w.maxBytes, record);
      PartialStored(s.(records := s.records + [record]), w.maxBytes, record, Encode(record).value);
      TailChanges(w.segs, s.(records := s.records + [record]));
      TailRecords(w.segs, s.(records := s.records + [record]));
    }
  }

  lemma PartialStored(s: Seg, maxBytes: int, record: Record, rest: seq<byte>)
    requires Partial(s, maxBytes, record, rest)
    ensures SegmentInv(View(s)) && s.open
  {
    hide Indexable, IndexOf, EncodeAll, Encodable, Roomy;
    EncodeSnocTotal(Front(s.records), record);
    assert s.records == Front(s.records) + [record];
  }

  lemma CompleteStored(s: Seg)
    requires Complete(s)
    ensures SegmentInv(View(s)) && s.next == s.base + |s.records| && s.position == Total(s.records)
    ensures |s.bytes| == s.position && (s.position != 0 ==> s.records != [])
  {
    hide Indexable, IndexOf, Encodable;
    EncodeAllLength(s.records);
  }

  lemma SyncedComplete(s: Seg)
    requires Complete(s)
    ensures Complete(Synced(s)) && Complete(Shut(s)) && s.synced <= Synced(s).synced && s.synced <= Shut(s).synced
    ensures View(Synced(s)) == Flush(View(s)) && View(Shut(s)) == Seal(View(s))
  {
    hide Indexable, IndexOf, Stored, EncodeAll, Total;
    CompleteStored(s);
  }

  /** Closing the log changes its tail alone. */
  lemma ShutAllTail(segs: seq<Seg>)
    requires SegsInv(segs)
    ensures segs != [] && ShutAll(segs) == segs[|segs| - 1 := Shut(segs[|segs| - 1])]
  {
    hide Complete, SegmentInv, Linked;
  }

  /** The tail synced or closed, with nothing on its way. */
  lemma TailSynced(segs: seq<Seg>, s: Seg)
    requires SegsInv(segs) && Complete(segs[|segs| - 1])
    requires s == Shut(segs[|segs| - 1]) || (s == Synced(segs[|segs| - 1]) && segs[|segs| - 1].open)
    ensures Complete(s) && SegsInv(segs[|segs| - 1 := s]) && Grows(segs, segs[|segs| - 1 := s])
    ensures AllRecords(Views(segs[|segs| - 1 := s])) == AllRecords(Views(segs))
  {
    hide SegsInv, Complete, Linked, SegmentInv, AllRecords, Views, Grows;
    SegsNotEmpty(segs);
    SyncedComplete(segs[|segs| - 1]);
    CompleteStored(s);
    TailChanges(segs, s);
  }

  lemma AckKept(w: Writers, v: Writers)
    requires AckInv(w) && AllRecords(Views(v.segs)) == AllRecords(Views(w.segs))
    requires v.before == w.before && v.acked == w.acked && InFlight(v) == InFlight(w)
    ensures AckInv(v)
  {
    hide AllRecords, Views, InFlight;
  }

  lemma StepWrite(w: Writers, t: nat, n: nat)
    requires WritersInv(w) && Enabled(w, WriteSome(t, n))
    ensures WritersInv(Next(w, WriteSome(t, n))) && Grows(w.segs, Next(w, WriteSome(t, n)).segs)
  {
    hide AllRecords, Views, View, Total, AckInv, SegsInv, Complete, Partial, Grows, LockInv;
    InsideHolds(w, t);
    LockKept(w, WriteSome(t, n));
    var p, s := w.threads[t], Active(w);
    WritingPartial(s, w.maxBytes, p.record, p.rest, n);
    PartialStored(s, w.maxBytes, p.record, p.rest);
    PartialStored(s.(bytes := s.bytes + p.rest[..n]), w.maxBytes, p.record, p.rest[n..]);
    TailChanges(w.segs, s.(bytes := s.bytes + p.rest[..n]));
    AckKept(w, Next(w, WriteSome(t, n)));
  }

  lemma StepFinish(w: Writers, t: nat)
    requires WritersInv(w) && Enabled(w, Finish(t))
    ensures WritersInv(Next(w, Finish(t))) && Grows(w.segs, Next(w, Finish(t)).segs)
  {
    hide AllRecords, Views, View, Total, AckInv, SegsInv, Complete, Partial, Grows, LockInv, Extend, Size;
    InsideHolds(w, t);
    LockKept(w, Finish(t));
    var p, s := w.threads[t], Active(w);
    FinishingCompletes(s, w.maxBytes, p.record);
    PartialStored(s, w.maxBytes, p.record, []);
    var fed := Extend(s.entries, s.base, INTERVAL_BYTES, p.record.offset, s.position);
    CompleteStored(s.(next := s.next + 1, position := |s.bytes|, entries := fed.value));
    TailChanges(w.segs, s.(next := s.next + 1, position := |s.bytes|, entries := fed.value));
    AckKept(w, Next(w, Finish(t)));
  }

  lemma StepGrow(w: Writers, t: nat)
    requires WritersInv(w) && Enabled(w, Grow(t))
    ensures WritersInv(Next(w, Grow(t))) && Grows(w.segs, Next(w, Grow(t)).segs)
  {
    hide AllRecords, Views, View, Total, AckInv, SegsInv, Complete, Partial, Grows, LockInv, Size;
    InsideHolds(w, t);
    LockKept(w, Grow(t));
    CompleteStored(Active(w));
    NewTail(w.segs, Active(w).next);
    AckKept(w, Next(w, Grow(t)));
  }

  lemma StepClaim(w: Writers, t: nat)
    requires WritersInv(w) && Enabled(w, Claim(t))
    ensures WritersInv(Next(w, Claim(t))) && Grows(w.segs, Next(w, Claim(t)).segs)
  {
    hide AllRecords, Views, View, AckInv, SegsInv, Complete, Partial, Grows, LockInv, Shut, Synced;
    InsideHolds(w, t);
    LockKept(w, Claim(t));
    SameGrows(w.segs);
    ShutAllTail(w.segs);
    TailSynced(w.segs, Shut(Active(w)));
    if Active(w).open {
      TailSynced(w.segs, Synced(Active(w)));
    }
    ShutOpen(Active(w));
    AckKept(w, Next(w, Claim(t)));
  }

  lemma ShutOpen(s: Seg)
    ensures !Shut(s).open && Synced(s).open == s.open
    ensures Shut(s).next == s.next && Shut(s).position == s.position
  {
  }

  lemma StepPlace(w: Writers, t: nat)
    requires WritersInv(w) && Enabled(w, Place(t))
    ensures WritersInv(Next(w, Place(t))) && Grows(w.segs, Next(w, Place(t)).segs)
  {
    hide AllRecords, Views, View, AckInv, SegsInv, Complete, Partial, Grows, LockInv, Shut, Size;
    InsideHolds(w, t);
    LockKept(w, Place(t));
    SameGrows(w.segs);
    TailSynced(w.segs, Shut(Active(w)));
    ShutOpen(Active(w));
    AckKept(w, Next(w, Place(t)));
  }

  lemma StepElsewhere(w: Writers, step: Step)
    requires WritersInv(w) && Enabled(w, step)
    requires step.Arrive? || step.Acquire? || step.Release?
    ensures WritersInv(Next(w, step)) && Grows(w.segs, Next(w, step).segs)
  {
    hide AllRecords, Views, SegsInv, Complete, Partial, Grows, LockInv, Size;
    LockKept(w, step);
    SameGrows(w.segs);
    if !step.Arrive? && !step.Acquire? {
      InsideHolds(w, step.t);
    } else {
      OutsideStays(w, step);
    }
  }

  lemma OutsideStays(w: Writers, step: Step)
    requires LockInv(w) && Enabled(w, step) && (step.Arrive? || step.Acquire?)
    ensures step.Arrive? ==> Holder(Next(w, step)) == Holder(w)
    ensures step.Acquire? ==> Holder(w) == None && Holder(Next(w, step)) == Some(Entered(w.threads[step.t].request))
  {
  }

  /** Every step of every thread keeps the invariant, and the shared segments only grow. */
  lemma StepKeeps(w: Writers, step: Step)
    requires WritersInv(w) && Enabled(w, step)
    ensures WritersInv(Next(w, step))
    ensures Grows(w.segs, Next(w, step).segs)
  {
    hide WritersInv, Enabled, Next, Grows;
    match step
    case Claim(t) => StepClaim(w, t);
    case Place(t) => StepPlace(w, t);
    case Begin(t) => StepBegin(w, t);
    case WriteSome(t, n) => StepWrite(w, t, n);
    case Finish(t) => StepFinish(w, t);
    case Grow(t) => StepGrow(w, t);
    case _ => StepElsewhere(w, step);
  }

  // ---------------------------------------------------- what callers are told

  ghost predicate NoAck(acked: seq<Ack>, t: nat) {
    forall j :: 0 <= j < |acked| ==> acked[j].thread != t
  }

  /** The i-th acknowledgement, and no other, is for call t; its record is r. */
  ghost predicate AckedAt(acked: seq<Ack>, t: nat, i: int, r: Record) {
    && 0 <= i < |acked| && acked[i] == Ack(t, r)
    && forall j :: 0 <= j < |acked| && acked[j].thread == t ==> j == i
  }

  /** What an append asks for cannot be encoded at some offset of the log or at its end. */
  ghost predicate Unencodable(request: Request, first: int, count: nat)
    requires request.AppendRequest?
  {
    exists o :: first <= o <= first + count && !Encodable(RecordFor(request, o))
  }

  /** A closed segment has room for what an append asks for, so that the append does not roll. */
  ghost predicate ClosedWithRoom(segs: seq<Seg>, maxBytes: int, request: Request)
    requires request.AppendRequest?
  {
    exists i :: 0 <= i < |segs| && !segs[i].open && Roomy(segs[i], maxBytes, RecordFor(request, segs[i].next))
  }

  /** Why a call may raise. */
  ghost predicate MayRaise(w: Writers, request: Request)
    requires w.segs != []
  {
    match request
    case AppendRequest(_, _, _) =>
      || Unencodable(request, w.segs[0].base, |AllRecords(Views(w.segs))|)
      || (w.closed && ClosedWithRoom(w.segs, w.maxBytes, request))
    case SyncRequest => w.closed
    case _ => false
  }

  predicate Asked(request: Request, r: Record) {
    request.AppendRequest? && r == RecordFor(request, r.offset)
  }

  predicate Succeeded(p: Thread) {
    p.Returned? && p.result.Ok? && p.result.value.Some?
  }

  ghost predicate CallInv(w: Writers, t: nat, p: Thread)
    requires w.segs != []
  {
    && (Succeeded(p) ==>
          p.request.AppendRequest? && exists i :: AckedAt(w.acked, t, i, RecordFor(p.request, p.result.value.value)))
    && (!Succeeded(p) ==> NoAck(w.acked, t))
    && (p.Claimed? || p.Ready? || p.Writing? ==> Asked(p.request, p.record))
    && (p.Sealing? && p.after.None? ==> p.request.RollRequest?)
    && (p.Sealing? && p.after.Some? ==> Asked(p.request, p.after.value))
    && (p.Leaving? && p.outcome.Ok? ==>
          if p.outcome.value.Some? then Asked(p.request, p.outcome.value.value) else !p.request.AppendRequest?)
    && (p.Leaving? && p.outcome.Err? ==> MayRaise(w, p.request))
    && (p.Returned? && p.result.Ok? && p.result.value.None? ==> !p.request.AppendRequest?)
    && (p.Returned? && p.result.Err? ==> MayRaise(w, p.request))
  }

  ghost predicate CallsInv(w: Writers) {
    && w.segs != []
    && (forall t :: t in w.threads ==> CallInv(w, t, w.threads[t]))
    && (forall i :: 0 <= i < |w.acked| ==> w.acked[i].thread in w.threads)
  }

  ghost predicate OneMore(acked: seq<Ack>, more: seq<Ack>, u: nat) {
    more == acked || exists r :: more == acked + [Ack(u, r)]
  }

  /** A call that takes no step is told the same, as the log grows and others are acknowledged. */
  lemma OtherCall(w: Writers, v: Writers, t: nat, p: Thread, u: nat)
    requires w.segs != [] && CallInv(w, t, p) && t != u
    requires Grows(w.segs, v.segs) && v.maxBytes == w.maxBytes && (w.closed ==> v.closed)
    requires OneMore(w.acked, v.acked, u)
    ensures v.segs != [] && CallInv(v, t, p)
  {
    hide Grows, MayRaise;
    RaiseGrows(w, v, p.request);
    if Succeeded(p) {
      var i :| AckedAt(w.acked, t, i, RecordFor(p.request, p.result.value.value));
      assert AckedAt(v.acked, t, i, RecordFor(p.request, p.result.value.value));
    }
  }

  lemma RaiseGrows(w: Writers, v: Writers, request: Request)
    requires w.segs != [] && Grows(w.segs, v.segs) && v.maxBytes == w.maxBytes && (w.closed ==> v.closed)
    ensures v.segs != [] && (MayRaise(w, request) ==> MayRaise(v, request))
  {
    hide AllRecords, Views, Encodable, Roomy;
    GrowsInCount(w.segs, v.segs);
    if request.AppendRequest? && ClosedWithRoom(w.segs, w.maxBytes, request) {
      var i :| 0 <= i < |w.segs| && !w.segs[i].open && Roomy(w.segs[i], w.maxBytes, RecordFor(request, w.segs[i].next));
      assert v.segs[i] == w.segs[i];
    }
  }

  lemma NextIsCount(segs: seq<Seg>)
    requires SegsInv(segs) && Complete(segs[|segs| - 1])
    ensures segs[|segs| - 1].next == segs[0].base + |AllRecords(Views(segs))|
  {
    hide Complete, AllRecords, Linked, Stored, Total;
    ViewsInv(segs);
    CompleteStored(segs[|segs| - 1]);
    ChainStored(Views(segs));
  }

  /** A record whose turn has come carries the next offset, so one that is refused cannot be encoded there or meets a closed tail. */
  lemma RefusedCall(w: Writers, t: nat)
    requires WritersInv(w) && t in w.threads && w.threads[t].Ready?
    requires Asked(w.threads[t].request, w.threads[t].record)
    ensures w.segs != [] && w.threads[t].record.offset == Active(w).next
    ensures Encode(w.threads[t].record).Err? || !Active(w).open ==> MayRaise(w, w.threads[t].request)
  {
    hide SegsInv, Complete, Partial, AckInv, Encodable, Encode, AllRecords, Views, Roomy;
    InsideHolds(w, t);
    SegsNotEmpty(w.segs);
    NextIsCount(w.segs);
    var r := w.threads[t].record;
    EncodableIff(r);
    assert RecordFor(w.threads[t].request, r.offset) == r;
  }

  lemma SegsNotEmpty(segs: seq<Seg>)
    requires SegsInv(segs)
    ensures segs != []
  {
    hide Complete, Stored, Linked;
  }

  /** Once a record is written out, nothing can keep it from being acknowledged. */
  lemma FinishedCall(w: Writers, t: nat)
    requires WritersInv(w) && t in w.threads && w.threads[t].Writing? && w.threads[t].rest == []
    ensures w.segs != [] && w.threads[t].target == |w.segs| - 1
    ensures var s, r := Active(w), w.threads[t].record;
            |s.bytes| == s.position + Size(r) && Extend(s.entries, s.base, INTERVAL_BYTES, r.offset, s.position).Ok?
  {
    hide SegsInv, Complete, Partial, AckInv, Extend, Size, AllRecords, Views;
    SegsNotEmpty(w.segs);
    InsideHolds(w, t);
    FinishingCompletes(Active(w), w.maxBytes, w.threads[t].record);
  }

  /** The call whose thread takes the step is told nothing untrue. */
  lemma ActingCall(w: Writers, step: Step)
    requires WritersInv(w) && CallsInv(w) && Enabled(w, step)
    requires Grows(w.segs, Next(w, step).segs)
    ensures Told(Next(w, step), step.t)
  {
    hide WritersInv, CallsInv, Enabled, Next, Grows, Told;
    match step
    case Begin(t) => BeginTells(w, t);
    case Finish(t) => FinishTells(w, t);
    case Release(t) => ReleaseTells(w, t);
    case Claim(t) => ClaimTells(w, t);
    case _ => StepTells(w, step);
  }

  ghost predicate Told(w: Writers, t: nat) {
    w.segs != [] && t in w.threads && CallInv(w, t, w.threads[t])
  }

  lemma BeginTells(w: Writers, t: nat)
    requires WritersInv(w) && CallsInv(w) && Enabled(w, Begin(t))
    requires Grows(w.segs, Next(w, Begin(t)).segs)
    ensures Told(Next(w, Begin(t)), t)
  {
    hide WritersInv, AllRecords, Views, Encode, MayRaise;
    assert Told(w, t);
    RefusedCall(w, t);
    RaiseGrows(w, Next(w, Begin(t)), w.threads[t].request);
  }

  lemma FinishTells(w: Writers, t: nat)
    requires WritersInv(w) && CallsInv(w) && Enabled(w, Finish(t))
    requires Grows(w.segs, Next(w, Finish(t)).segs)
    ensures Told(Next(w, Finish(t)), t)
  {
    hide WritersInv, AllRecords, Views, Extend, Size, MayRaise;
    assert Told(w, t);
    FinishedCall(w, t);
  }

  lemma ReleaseTells(w: Writers, t: nat)
    requires CallsInv(w) && Enabled(w, Release(t))
    ensures Told(Next(w, Release(t)), t)
  {
    hide AllRecords, Views, MayRaise;
    var v := Next(w, Release(t));
    assert Told(w, t);
    SameRaise(w, v, w.threads[t].request);
    if v.acked != w.acked {
      assert AckedAt(v.acked, t, |w.acked|, w.threads[t].outcome.value.value);
    }
  }

  lemma SameRaise(w: Writers, v: Writers, request: Request)
    requires w.segs != [] && v.segs == w.segs && v.maxBytes == w.maxBytes && v.closed == w.closed
    ensures MayRaise(w, request) <==> MayRaise(v, request)
  {
    hide AllRecords, Views, Unencodable, ClosedWithRoom;
  }

  lemma StepTells(w: Writers, step: Step)
    requires CallsInv(w) && Enabled(w, step)
    requires !step.Begin? && !step.Finish? && !step.Release? && !step.Claim?
    requires Grows(w.segs, Next(w, step).segs)
    ensures Told(Next(w, step), step.t)
  {
    hide AllRecords, Views, Roomy, Encodable, MayRaise, Shut, WritersInv, Grows;
    assert !step.Arrive? ==> Told(w, step.t);
  }

  lemma ClaimTells(w: Writers, t: nat)
    requires WritersInv(w) && CallsInv(w) && Enabled(w, Claim(t))
    ensures Told(Next(w, Claim(t)), t)
  {
    hide AllRecords, Views, Encodable, MayRaise, Shut, Synced, WritersInv;
    assert Told(w, t);
    ClaimedClosed(w, t);
  }

  /** A sync of a closed tail raises only after a close. */
  lemma ClaimedClosed(w: Writers, t: nat)
    requires WritersInv(w) && Enabled(w, Claim(t))
    ensures Next(w, Claim(t)).segs != []
    ensures w.threads[t].request.SyncRequest? && !Active(w).open ==> MayRaise(Next(w, Claim(t)), w.threads[t].request)
  {
    hide SegsInv, Complete, Partial, AckInv, AllRecords, Views, Unencodable, ClosedWithRoom;
    InsideHolds(w, t);
  }

  /** Every step keeps what has been told to callers true. */
  lemma CallsKept(w: Writers, step: Step)
    requires WritersInv(w) && CallsInv(w) && Enabled(w, step)
    ensures CallsInv(Next(w, step))
  {
    hide WritersInv, AllRecords, Views, CallInv, Next, Enabled, Grows, OneMore;
    StepKeeps(w, step);
    ActingCall(w, step);
    var v := Next(w, step);
    GrowsInCount(w.segs, v.segs);
    AcksGrow(w, step);
    OnlyActor(w, step);
    forall t | t in v.threads
      ensures CallInv(v, t, v.threads[t])
    {
      if t != step.t {
        OtherCall(w, v, t, w.threads[t], step.t);
      }
    }
  }

  lemma GrowsInCount(segs: seq<Seg>, more: seq<Seg>)
    requires segs != [] && Grows(segs, more)
    ensures more != [] && more[0].base == segs[0].base
    ensures |AllRecords(Views(segs))| <= |AllRecords(Views(more))|
  {
    hide AllRecords, Views;
  }

  /** A step moves one thread, and changes no request. */
  lemma OnlyActor(w: Writers, step: Step)
    requires Enabled(w, step)
    ensures var v := Next(w, step);
            && v.threads.Keys == w.threads.Keys + {step.t}
            && (forall t :: t in w.threads && t != step.t ==> v.threads[t] == w.threads[t])
            && (step.t in w.threads ==> v.threads[step.t].request == w.threads[step.t].request)
  {
    hide Next, Enabled;
    ActorMoves(w, step);
  }

  lemma ActorMoves(w: Writers, step: Step)
    requires Enabled(w, step)
    ensures var v := Next(w, step);
            && step.t in v.threads && v.threads == w.threads[step.t := v.threads[step.t]]
            && (step.t in w.threads ==> v.threads[step.t].request == w.threads[step.t].request)
  {
    if step.Claim? || step.Place? || step.Begin? || step.Finish? {
      LogMoves(w, step);
    } else {
      hide Answer;
    }
  }

  lemma LogMoves(w: Writers, step: Step)
    requires Enabled(w, step) && (step.Claim? || step.Place? || step.Begin? || step.Finish?)
    ensures var v := Next(w, step);
            && step.t in w.threads && step.t in v.threads && v.threads == w.threads[step.t := v.threads[step.t]]
            && v.threads[step.t].request == w.threads[step.t].request
  {
    hide Encode, Extend, Roomy, Shut, Synced, ShutAll;
  }

  lemma AcksGrow(w: Writers, step: Step)
    requires Enabled(w, step)
    ensures var v := Next(w, step);
            OneMore(w.acked, v.acked, step.t) && v.maxBytes == w.maxBytes && (w.closed ==> v.closed)
            && forall i :: 0 <= i < |v.acked| ==> v.acked[i] in w.acked || v.acked[i].thread == step.t
  {
    hide Encode, Extend, Roomy, Shut, Synced, ShutAll, Answer;
  }

  /** Before any thread arrives: an open log with nothing in flight. */
  ghost predicate Initial(w: Writers) {
    && ValidLimit(w.maxBytes)
    && SegsInv(w.segs) && Complete(w.segs[|w.segs| - 1])
    && Active(w).open && !w.closed
    && w.lock == None && w.threads == map[]
    && w.before == AllRecords(Views(w.segs)) && w.acked == []
  }

  /** An empty log is one to start from. */
  lemma EmptyLogIsInitial(maxBytes: int)
    requires ValidLimit(maxBytes)
    ensures Initial(Writers(maxBytes, [NewSeg(0)], None, map[], [], [], false))
  {
    hide Complete, Total;
    EmptyComplete(0);
    CompleteStored(NewSeg(0));
    assert Views([NewSeg(0)])[..0] == [];
  }

  lemma InitialInv(w: Writers)
    requires Initial(w)
    ensures WritersInv(w) && CallsInv(w)
  {
    hide AllRecords, Complete, Linked;
    assert AllRecords(Views(w.segs)) + [] + [] == AllRecords(Views(w.segs));
  }

  ghost predicate Reaches(w: Writers, steps: seq<Step>, v: Writers)
    decreases steps
  {
    if steps == [] then w == v else Enabled(w, steps[0]) && Reaches(Next(w, steps[0]), steps[1..], v)
  }

  lemma HistoryKept(w: Writers, step: Step)
    requires Enabled(w, step)
    ensures Next(w, step).before == w.before && w.acked <= Next(w, step).acked
  {
    hide Encode, Extend, Roomy, Shut, Synced, ShutAll, Answer;
  }

  lemma {:induction false} RunKeeps(w: Writers, steps: seq<Step>, v: Writers)
    requires WritersInv(w) && CallsInv(w) && Reaches(w, steps, v)
    ensures WritersInv(v) && CallsInv(v)
    ensures v.before == w.before && w.acked <= v.acked
    ensures forall t :: t in w.threads ==> t in v.threads && v.threads[t].request == w.threads[t].request
    decreases steps
  {
    hide WritersInv, CallsInv, Enabled, Next;
    if steps == [] {
    } else {
      StepKeeps(w, steps[0]);
      CallsKept(w, steps[0]);
      HistoryKept(w, steps[0]);
      OnlyActor(w, steps[0]);
      RunKeeps(Next(w, steps[0]), steps[1..], v);
    }
  }

  /**
   Concurrent appends. However many threads append and roll, in any
   interleaving, at most one is inside the lock; the log is what it was at
   first, then the acknowledged records in lock order, numbered without a gap,
   then at most one in flight. Whenever the lock is free nothing is in flight,
   and file and memory agree throughout. What each caller is told is the
   subject of CallersGet.
   */
  lemma AckedInOrder(start: Writers, steps: seq<Step>, w: Writers)
    requires Initial(start) && Reaches(start, steps, w)
    ensures forall t, u :: t in w.threads && u in w.threads && InCritical(w.threads[t]) && InCritical(w.threads[u]) ==> t == u
    ensures w.segs != [] && AllRecords(Views(w.segs)) == start.before + RecordsOf(w.acked) + InFlight(w) && |InFlight(w)| <= 1
    ensures Numbered(AllRecords(Views(w.segs)), w.segs[0].base)
    ensures Numbered(RecordsOf(w.acked), w.segs[0].base + |start.before|)
    ensures w.lock == None ==>
              && AllRecords(Views(w.segs)) == start.before + RecordsOf(w.acked)
              && forall i :: 0 <= i < |w.segs| ==> Complete(w.segs[i])
  {
    hide AllRecords, Complete, Stored, Linked, Indexable, Views, View;
    InitialInv(start);
    RunKeeps(start, steps, w);
    ViewsNumbered(w.segs);
    var all, first := AllRecords(Views(w.segs)), w.segs[0].base;
    assert all == start.before + RecordsOf(w.acked) + InFlight(w);
    forall k | 0 <= k < |w.acked|
      ensures w.acked[k].record.offset == first + |start.before| + k
    {
      assert w.acked[k].record == all[|start.before| + k];
    }
  }

  /**
   What a call gets. An append that returns has an offset: exactly one record
   was acknowledged for it, the log holds that record under the offset, and its
   key, value and timestamp are those the call asked for. An append that raises
   asked for a record that cannot be encoded, or came after a close and found a
   closed tail with room for it; a sync raises only after a close; a roll and a
   close never do. `Linear.RaisesExactly` says when an append raises at its turn.
   */
  lemma CallersGet(start: Writers, steps: seq<Step>, w: Writers, t: nat)
    requires Initial(start) && Reaches(start, steps, w)
    requires t in w.threads && w.threads[t].Returned?
    ensures w.segs != []
    ensures var request, first, log := w.threads[t].request, w.segs[0].base, AllRecords(Views(w.segs));
            match w.threads[t].result
            case Ok(Some(offset)) =>
              && request.AppendRequest?
              && var r := Record(offset, request.timestamp, request.key, request.value);
              && Encodable(r)
              && 0 <= offset - first < |log| && log[offset - first] == r
              && AckedAt(w.acked, t, offset - first - |start.before|, r)
            case Ok(None) => NoAck(w.acked, t) && !request.AppendRequest?
            case Err(_) => NoAck(w.acked, t) && MayRaise(w, request)
  {
    hide MayRaise, AllRecords, Complete, Linked, Indexable, Views, View, Encodable, SegsInv, TailInv, LockInv;
    InitialInv(start);
    RunKeeps(start, steps, w);
    SegsStored(w.segs);
    var p, first, log := w.threads[t], w.segs[0].base, AllRecords(Views(w.segs));
    assert CallInv(w, t, p);
    if Succeeded(p) {
      var r := RecordFor(p.request, p.result.value.value);
      var i :| AckedAt(w.acked, t, i, r);
      assert log[|start.before| + i] == RecordsOf(w.acked)[i] == r;
    }
  }

  /** Nor can a call be stuck inside the lock: its thread always has a step to take. */
  lemma InsideCanStep(start: Writers, steps: seq<Step>, w: Writers, t: nat)
    requires Initial(start) && Reaches(start, steps, w)
    requires t in w.threads && InCritical(w.threads[t])
    ensures exists step: Step :: step.t == t && Enabled(w, step)
  {
    hide SegsInv, AckInv, Complete, Partial, AllRecords, Views, CallsInv;
    InitialInv(start);
    RunKeeps(start, steps, w);
    SegsNotEmpty(w.segs);
    InsideHolds(w, t);
    var step := match w.threads[t]
      case Entered(_) => Claim(t)
      case Claimed(_, _) => Place(t)
      case Sealing(_, _) => Grow(t)
      case Ready(_, _) => Begin(t)
      case Writing(_, _, _, rest) => if rest == [] then Finish(t) else WriteSome(t, |rest|)
      case _ => Release(t);
    assert step.t == t && Enabled(w, step);
  }

  /** Two calls are never given the same offset. */
  lemma DistinctOffsets(start: Writers, steps: seq<Step>, w: Writers, t: nat, u: nat)
    requires Initial(start) && Reaches(start, steps, w) && t != u
    requires t in w.threads && Succeeded(w.threads[t]) && u in w.threads && Succeeded(w.threads[u])
    ensures w.threads[t].result != w.threads[u].result
  {
    hide AllRecords, Views, Encodable, Initial, Reaches;
    CallersGet(start, steps, w, t);
    CallersGet(start, steps, w, u);
  }

  lemma SegsStored(segs: seq<Seg>)
    requires SegsInv(segs)
    ensures segs != [] && Stored(AllRecords(Views(segs)), segs[0].base)
  {
    hide Complete, AllRecords, Linked, Encodable;
    ViewsInv(segs);
    ChainStored(Views(segs));
  }

  lemma ViewFields(s: Seg)
    ensures View(s).base == s.base && View(s).records == s.records && View(s).open == s.open
  {
  }

  lemma ViewsInv(segs: seq<Seg>)
    requires SegsInv(segs)
    ensures AllInv(Views(segs)) && Linked(Views(segs)) && Sealed(Views(segs))
  {
    hide Complete, SegmentInv, View, Linked;
    forall i | 0 <= i < |segs|
      ensures SegmentInv(Views(segs)[i]) && Views(segs)[i].open == segs[i].open && Views(segs)[i].records == segs[i].records
    {
      ViewFields(segs[i]);
    }
  }

  lemma ViewsNumbered(segs: seq<Seg>)
    requires SegsInv(segs)
    ensures Numbered(AllRecords(Views(segs)), segs[0].base)
  {
    hide Complete, AllRecords, Linked, Encodable;
    ViewsInv(segs);
    ChainStored(Views(segs));
  }
}
