/**
 The threads of `Appenders` against the log as one value: each call takes effect
 as a whole, in the order the lock is given back, and what it is told is what
 the operation of `Chains` returns there. So all that is proved about runs of
 that log holds for the threads, crashes at any moment included.
 */
module Linear {
  import opened Bytes
  import opened Records
  import opened Frames
  import opened Indexes
  import opened Recovery
  import opened Segments
  import opened Chains
  import opened Opening
  import opened Appenders
  import Crashes

  /** What the shared segments stand for, the record on its way included. */
  function StateOf(w: Writers): LogState {
    LogState(w.maxBytes, Views(w.segs))
  }

  /** What a request makes of a log, and what it returns. */
  function Apply(log: LogState, request: Request): (LogState, Result<Option<int>>)
    requires log.segs != []
  {
    match request
    case AppendRequest(key, value, timestamp) =>
      var (after, r) := AppendLog(log, key, value, timestamp);
      (after, match r case Ok(offset) => Ok(Some(offset)) case Err(e) => Err(e))
    case RollRequest => (RollLog(log), Ok(None))
    case SyncRequest =>
      var (after, r) := SyncLog(log);
      (after, match r case Ok(_) => Ok(None) case Err(e) => Err(e))
    case CloseRequest => (CloseLog(log), Ok(None))
  }

  lemma ApplyKeeps(log: LogState, request: Request)
    requires LogInv(log)
    ensures var after := Apply(log, request).0;
            && LogInv(after) && after.segs != [] && FirstOffset(after) == FirstOffset(log)
            && after.maxBytes == log.maxBytes
            && AllRecords(log.segs) <= AllRecords(after.segs)
  {
    hide AllInv, AllIndexable, Linked, Sealed, AllRecords, AppendTo, FirstOffset;
    match request
    case AppendRequest(key, value, timestamp) => AppendOutcome(log, key, value, timestamp);
    case RollRequest => RollKeepsChain(log);
    case SyncRequest => SyncKeepsChain(log);
    case CloseRequest => CloseKeepsChain(log);
  }

  // ------------------------------------------------- one call inside the lock

  /** The record an append is due to write. */
  predicate Due(log: LogState, request: Request, record: Record)
    requires log.segs != []
  {
    request.AppendRequest? && record == RecordFor(request, LogNext(log))
  }

  /** The log once there is room for a record. */
  function WithRoomFor(log: LogState, record: Record): LogState
    requires log.segs != []
  {
    if HasRoom(Tail(log), log.maxBytes, record) then log else RollLog(log)
  }

  /** How far the call inside the lock has changed the log it found. */
  ghost predicate Stands(w: Writers, log: LogState) {
    LogInv(log) && log.segs != [] &&
    match Holder(w)
    case Some(Claimed(request, record)) => StateOf(w) == log && Due(log, request, record)
    case Some(Sealing(request, None)) =>
      StateOf(w) == CloseLog(log) && request.RollRequest? && Position(Tail(log)) != 0
    case Some(Sealing(request, Some(record))) =>
      StateOf(w) == CloseLog(log) && Due(log, request, record) && !HasRoom(Tail(log), log.maxBytes, record)
    case Some(Ready(request, record)) => StateOf(w) == WithRoomFor(log, record) && Due(log, request, record)
    case Some(Writing(request, record, _, _)) => (StateOf(w), Ok(Some(record.offset))) == Apply(log, request)
    case Some(Leaving(request, outcome)) => (StateOf(w), Answer(outcome)) == Apply(log, request)
    case _ => StateOf(w) == log
  }

  lemma StateWith(w: Writers, s: Seg)
    requires w.segs != []
    ensures StateOf(w).segs != [] && StateOf(WithActive(w, s)) == WithTail(StateOf(w), View(s))
    ensures Tail(StateOf(w)) == View(Active(w))
  {
    hide View;
    assert Views(WithActive(w, s).segs) == Views(w.segs)[|w.segs| - 1 := View(s)];
  }

  lemma StateWithNew(w: Writers, s: Seg)
    ensures StateOf(w.(segs := w.segs + [s])).segs == StateOf(w).segs + [View(s)]
  {
    hide View;
  }

  /** With nothing on its way, the active segment counts as its view does. */
  lemma ActiveCounts(w: Writers)
    requires WritersInv(w) && w.segs != [] && Complete(Active(w))
    ensures StateOf(w).segs != [] && LogNext(StateOf(w)) == Active(w).next
    ensures Position(Tail(StateOf(w))) == Active(w).position
    ensures forall r :: HasRoom(Tail(StateOf(w)), w.maxBytes, r) == Roomy(Active(w), w.maxBytes, r)
    ensures StateOf(WithActive(w, Shut(Active(w)))) == WithTail(StateOf(w), Seal(Tail(StateOf(w))))
    ensures StateOf(WithActive(w, Synced(Active(w)))) == WithTail(StateOf(w), Flush(Tail(StateOf(w))))
  {
    hide WritersInv, Complete, Views, Shut, Synced, Seal, Flush, SegmentInv, Total;
    CompleteStored(Active(w));
    SyncedComplete(Active(w));
    StateWith(w, Shut(Active(w)));
    StateWith(w, Synced(Active(w)));
  }

  lemma RollIs(log: LogState)
    requires LogInv(log) && log.segs != [] && Position(Tail(log)) != 0
    ensures var closed := CloseLog(log);
            closed.segs != [] && LogNext(closed) == LogNext(log)
            && RollLog(log) == closed.(segs := closed.segs + [SegmentState(LogNext(log), [], 0, true)])
  {
    hide LogInv, Total;
    CloseSealsTail(log);
  }

  lemma ClaimStands(w: Writers, log: LogState, t: nat)
    requires WritersInv(w) && Stands(w, log) && Enabled(w, Claim(t))
    ensures Stands(Next(w, Claim(t)), log)
  {
    hide SegsInv, Complete, Partial, AckInv, LogInv, Views, Shut, Synced, Seal, Flush, Position, AppendLog, LogNext, LockInv;
    InsideHolds(w, t);
    LockKept(w, Claim(t));
    InsideHolds(Next(w, Claim(t)), t);
    ActiveCounts(w);
    CloseSealsTail(log);
    ShutAllTail(w.segs);
  }

  lemma PlaceStands(w: Writers, log: LogState, t: nat)
    requires WritersInv(w) && Stands(w, log) && Enabled(w, Place(t))
    ensures Stands(Next(w, Place(t)), log)
  {
    hide SegsInv, Complete, Partial, AckInv, LogInv, Views, Shut, Seal, Position, AppendLog, LogNext, LockInv, HasRoom, Roomy;
    InsideHolds(w, t);
    LockKept(w, Place(t));
    InsideHolds(Next(w, Place(t)), t);
    ActiveCounts(w);
    CloseSealsTail(log);
  }

  lemma GrowStands(w: Writers, log: LogState, t: nat)
    requires WritersInv(w) && Stands(w, log) && Enabled(w, Grow(t))
    ensures Stands(Next(w, Grow(t)), log)
  {
    hide SegsInv, Complete, Partial, AckInv, LogInv, Views, Position, AppendLog, CloseLog, RollLog, LogNext, LockInv, Roomy;
    InsideHolds(w, t);
    LockKept(w, Grow(t));
    InsideHolds(Next(w, Grow(t)), t);
    ActiveCounts(w);
    RoomOrRecords(log, w.threads[t].after);
    RollIs(log);
    StateWithNew(w, NewSeg(Active(w).next));
  }

  lemma RoomOrRecords(log: LogState, after: Option<Record>)
    requires log.segs != []
    ensures after.Some? && !HasRoom(Tail(log), log.maxBytes, after.value) ==> Position(Tail(log)) != 0
  {
  }

  lemma AppendIs(log: LogState, request: Request, record: Record)
    requires LogInv(log) && log.segs != [] && Due(log, request, record)
    ensures var roomed := WithRoomFor(log, record);
            && LogInv(roomed) && LogNext(roomed) == LogNext(log) == record.offset && roomed.maxBytes == log.maxBytes
            && Apply(log, request) ==
                 (match Encode(record)
                  case Err(e) => (roomed, Err(e))
                  case Ok(_) =>
                    if !Tail(roomed).open then (roomed, Err(ValueError))
                    else (WithTail(roomed, Tail(roomed).(records := Tail(roomed).records + [record])), Ok(Some(record.offset))))
  {
    hide Encode, Refusal, Extend, IndexOf, Linked, Sealed, Stored, Indexable, Total, AllRecords, Encodable;
    RollKeepsChain(log);
    var roomed := WithRoomFor(log, record);
    RoomyAppendTo(Tail(roomed), log.maxBytes, record);
    RefusalEncodes(record);
    EncodableIff(record);
    SameTail(roomed);
  }

  lemma BeginStands(w: Writers, log: LogState, t: nat)
    requires WritersInv(w) && Stands(w, log) && Enabled(w, Begin(t))
    ensures Stands(Next(w, Begin(t)), log)
  {
    hide SegsInv, Complete, Partial, AckInv, LogInv, Views, Position, Encode, Apply, WithRoomFor, LogNext, LockInv, Roomy;
    InsideHolds(w, t);
    LockKept(w, Begin(t));
    InsideHolds(Next(w, Begin(t)), t);
    var record, s := w.threads[t].record, Active(w);
    AppendIs(log, w.threads[t].request, record);
    StateWith(w, s.(records := s.records + [record]));
  }

  /** Bytes and counters are not part of what the segments stand for. */
  lemma SameView(w: Writers, i: nat, s: Seg)
    requires i < |w.segs| && View(s) == View(w.segs[i])
    ensures StateOf(WithSeg(w, i, s)) == StateOf(w)
  {
    hide View;
    assert Views(WithSeg(w, i, s).segs) == Views(w.segs);
  }

  lemma WriteStands(w: Writers, log: LogState, t: nat, n: nat)
    requires WritersInv(w) && Stands(w, log) && Enabled(w, WriteSome(t, n))
    ensures Stands(Next(w, WriteSome(t, n)), log)
  {
    hide WritersInv, LogInv, StateOf, Apply;
    Exclusion(w);
    InsideHolds(w, t);
    LockKept(w, WriteSome(t, n));
    InsideHolds(Next(w, WriteSome(t, n)), t);
    var p := w.threads[t];
    SameView(w, p.target, w.segs[p.target].(bytes := w.segs[p.target].bytes + p.rest[..n]));
    SameSegs(WithSeg(w, p.target, w.segs[p.target].(bytes := w.segs[p.target].bytes + p.rest[..n])), Next(w, WriteSome(t, n)));
  }

  lemma SameSegs(w: Writers, v: Writers)
    requires w.segs == v.segs && w.maxBytes == v.maxBytes
    ensures StateOf(w) == StateOf(v)
  {
    hide Views;
  }

  lemma Exclusion(w: Writers)
    requires WritersInv(w)
    ensures LockInv(w)
  {
    hide SegsInv, LockInv, TailInv, AckInv;
  }

  lemma FinishStands(w: Writers, log: LogState, t: nat)
    requires WritersInv(w) && Stands(w, log) && Enabled(w, Finish(t))
    ensures Stands(Next(w, Finish(t)), log)
  {
    hide WritersInv, LogInv, StateOf, Apply, Extend, Size;
    Exclusion(w);
    InsideHolds(w, t);
    LockKept(w, Finish(t));
    InsideHolds(Next(w, Finish(t)), t);
    FinishedCall(w, t);
    var p, s := w.threads[t], Active(w);
    var fed := Extend(s.entries, s.base, INTERVAL_BYTES, p.record.offset, s.position);
    var full := s.(next := s.next + 1, position := |s.bytes|, entries := fed.value);
    SameView(w, p.target, full);
    SameSegs(WithSeg(w, p.target, full), Next(w, Finish(t)));
  }

  lemma OutsideStands(w: Writers, log: LogState, step: Step)
    requires WritersInv(w) && Stands(w, log) && Enabled(w, step) && (step.Arrive? || step.Acquire?)
    ensures Stands(Next(w, step), log)
  {
    hide WritersInv, LogInv, StateOf, Apply, Holder;
    Exclusion(w);
    OutsideStays(w, step);
    SameSegs(w, Next(w, step));
  }

  lemma ReleaseStands(w: Writers, log: LogState, t: nat)
    requires WritersInv(w) && Stands(w, log) && Enabled(w, Release(t))
    ensures Stands(Next(w, Release(t)), After(log, TurnOf(w, Release(t)))) && Fits(log, TurnOf(w, Release(t)))
  {
    hide WritersInv, LogInv, StateOf, Apply, Answer;
    Exclusion(w);
    InsideHolds(w, t);
    ApplyKeeps(log, w.threads[t].request);
    SameSegs(w, Next(w, Release(t)));
  }

  /** A call, by its thread: what it asked for, and what it was told. */
  datatype Turn = Turn(thread: nat, request: Request, result: Result<Option<int>>)

  /** A call's turn is over when it gives the lock back. */
  function TurnOf(w: Writers, step: Step): seq<Turn>
    requires Enabled(w, step)
  {
    if step.Release? then [Turn(step.t, w.threads[step.t].request, Answer(w.threads[step.t].outcome))] else []
  }

  function After(log: LogState, turns: seq<Turn>): LogState
    decreases turns
  {
    if turns == [] || log.segs == [] then log else After(Apply(log, turns[0].request).0, turns[1..])
  }

  /** Each call was told what its request returns when its turn comes. */
  ghost predicate Fits(log: LogState, turns: seq<Turn>)
    decreases turns
  {
    turns != [] ==>
      log.segs != [] && turns[0].result == Apply(log, turns[0].request).1 && Fits(Apply(log, turns[0].request).0, turns[1..])
  }

  /** Every step leaves the log as it was, or is the whole effect and the result of one call. */
  lemma StepStands(w: Writers, log: LogState, step: Step)
    requires WritersInv(w) && Stands(w, log) && Enabled(w, step)
    ensures Stands(Next(w, step), After(log, TurnOf(w, step))) && Fits(log, TurnOf(w, step))
  {
    hide WritersInv, Stands, Enabled, Next, Apply, Answer;
    match step
    case Claim(t) => ClaimStands(w, log, t);
    case Place(t) => PlaceStands(w, log, t);
    case Grow(t) => GrowStands(w, log, t);
    case Begin(t) => BeginStands(w, log, t);
    case WriteSome(t, n) => WriteStands(w, log, t, n);
    case Finish(t) => FinishStands(w, log, t);
    case Release(t) => ReleaseStands(w, log, t);
    case _ => OutsideStands(w, log, step);
  }

  // -------------------------------------------------------------- whole runs

  /** The turns of a run, in the order the lock was given back. */
  function TurnsOf(w: Writers, steps: seq<Step>): seq<Turn>
    decreases steps
  {
    if steps == [] || !Enabled(w, steps[0]) then []
    else TurnOf(w, steps[0]) + TurnsOf(Next(w, steps[0]), steps[1..])
  }

  lemma {:induction false} AfterBoth(log: LogState, a: seq<Turn>, b: seq<Turn>)
    requires log.segs != [] && (LogInv(log) || a == [])
    ensures After(log, a + b) == After(After(log, a), b)
    ensures Fits(log, a + b) <==> Fits(log, a) && Fits(After(log, a), b)
    decreases a
  {
    hide Apply, LogInv;
    if a == [] {
      assert a + b == b;
    } else {
      ApplyKeeps(log, a[0].request);
      AfterBoth(Apply(log, a[0].request).0, a[1..], b);
      assert (a + b)[1..] == a[1..] + b;
    }
  }

  lemma {:induction false} AfterKeeps(log: LogState, turns: seq<Turn>)
    requires LogInv(log)
    ensures var after := After(log, turns);
            && LogInv(after) && after.segs != [] && FirstOffset(after) == FirstOffset(log)
            && AllRecords(log.segs) <= AllRecords(after.segs)
    decreases turns
  {
    hide Apply, AllInv, AllIndexable, Linked, Sealed, AllRecords, FirstOffset;
    if turns == [] {
    } else {
      ApplyKeeps(log, turns[0].request);
      AfterKeeps(Apply(log, turns[0].request).0, turns[1..]);
    }
  }

  lemma {:induction false} RunStands(w: Writers, log: LogState, steps: seq<Step>, v: Writers)
    requires WritersInv(w) && CallsInv(w) && Stands(w, log) && Reaches(w, steps, v)
    ensures Stands(v, After(log, TurnsOf(w, steps))) && Fits(log, TurnsOf(w, steps))
    decreases steps
  {
    hide WritersInv, CallsInv, Stands, Enabled, Next, LogInv, TurnOf;
    StandsInv(w, log);
    if steps == [] {
    } else {
      var m := Next(w, steps[0]);
      StepKeeps(w, steps[0]);
      CallsKept(w, steps[0]);
      StepStands(w, log, steps[0]);
      RunStands(m, After(log, TurnOf(w, steps[0])), steps[1..], v);
      AfterBoth(log, TurnOf(w, steps[0]), TurnsOf(m, steps[1..]));
    }
  }

  lemma StandsInv(w: Writers, log: LogState)
    requires Stands(w, log)
    ensures LogInv(log) && log.segs != []
    ensures w.lock == None ==> StateOf(w) == log
  {
    hide LogInv, StateOf, Apply;
  }

  /** A segment and a log as they are handed to threads. */
  ghost function SegOf(s: SegmentState): Seg
    requires SegmentInv(s)
  {
    Seg(s.base, NextOffset(s), Position(s), EncodeAll(s.records), s.synced, s.open,
        IndexOf(s.records, s.base, INTERVAL_BYTES), s.records)
  }

  ghost function Shared(log: LogState): Writers
    requires AllInv(log.segs)
  {
    Writers(log.maxBytes, seq(|log.segs|, i requires 0 <= i < |log.segs| => SegOf(log.segs[i])), None, map[],
            AllRecords(log.segs), [], false)
  }

  /** Threads may start from any log whose tail is open, as `Opening.OpenLogInv` says that of every opened log is. */
  lemma SharedIsInitial(log: LogState)
    requires LogInv(log) && log.segs != [] && Tail(log).open
    ensures AllInv(log.segs) && Initial(Shared(log)) && StateOf(Shared(log)) == log
  {
    hide Linked, Stored, IndexOf, EncodeAll, Total, AllRecords, Indexable;
    var w := Shared(log);
    assert Views(w.segs) == log.segs;
    forall i | 0 <= i < |w.segs|
      ensures Complete(w.segs[i]) && (i < |w.segs| - 1 ==> w.segs[i].records != [] && !w.segs[i].open)
      ensures SegmentInv(View(w.segs[i]))
    {
      assert View(w.segs[i]) == log.segs[i];
    }
  }

  /** To start with, the segments stand for a log that satisfies every invariant of the chain. */
  lemma InitialStands(w: Writers)
    requires Initial(w)
    ensures Stands(w, StateOf(w)) && LogInv(StateOf(w)) && StateOf(w).segs != []
  {
    hide Linked, SegmentInv, IndexOf, EncodeAll, Total, AllRecords, Stored, Indexable;
    ViewsInv(w.segs);
  }

  /** The turns so far are those of the calls that have returned, once each. */
  ghost predicate TurnsAre(w: Writers, turns: seq<Turn>) {
    && (forall i :: 0 <= i < |turns| ==>
          turns[i].thread in w.threads && w.threads[turns[i].thread] == Returned(turns[i].request, turns[i].result))
    && (forall t :: t in w.threads && w.threads[t].Returned? ==> exists i :: 0 <= i < |turns| && turns[i].thread == t)
    && (forall i, j :: 0 <= i < j < |turns| ==> turns[i].thread != turns[j].thread)
  }

  lemma StepTurns(w: Writers, turns: seq<Turn>, step: Step)
    requires TurnsAre(w, turns) && Enabled(w, step)
    ensures TurnsAre(Next(w, step), turns + TurnOf(w, step))
  {
    hide Next, Enabled;
    ActorMoves(w, step);
    ReturnedOnly(w, step);
    var v, more := Next(w, step), turns + TurnOf(w, step);
    forall t | t in v.threads && v.threads[t].Returned?
      ensures exists i :: 0 <= i < |more| && more[i].thread == t
    {
      if t == step.t {
        assert more[|turns|].thread == t;
      } else {
        var i :| 0 <= i < |turns| && turns[i].thread == t;
        assert more[i].thread == t;
      }
    }
  }

  lemma ReturnedOnly(w: Writers, step: Step)
    requires Enabled(w, step)
    ensures step.t in w.threads ==> !w.threads[step.t].Returned?
    ensures step.t in Next(w, step).threads
    ensures var p := Next(w, step).threads[step.t];
            if step.Release? then [Turn(step.t, p.request, p.result)] == TurnOf(w, step) && p.Returned?
            else TurnOf(w, step) == [] && !p.Returned?
  {
    hide Encode, Extend, Roomy, Shut, Synced, ShutAll, Answer;
  }

  lemma {:induction false} RunTurns(w: Writers, turns: seq<Turn>, steps: seq<Step>, v: Writers)
    requires TurnsAre(w, turns) && Reaches(w, steps, v)
    ensures TurnsAre(v, turns + TurnsOf(w, steps))
    decreases steps
  {
    hide TurnsAre, TurnOf, Next, Enabled;
    if steps == [] {
      assert turns + [] == turns;
    } else {
      StepTurns(w, turns, steps[0]);
      RunTurns(Next(w, steps[0]), turns + TurnOf(w, steps[0]), steps[1..], v);
      assert turns + TurnOf(w, steps[0]) + TurnsOf(Next(w, steps[0]), steps[1..])
          == turns + (TurnOf(w, steps[0]) + TurnsOf(Next(w, steps[0]), steps[1..]));
    }
  }

  /**
   Linearizability. However many threads append, roll, sync and close, in any
   interleaving, there is one order of the calls, each with one turn in it, such
   that every call that has returned was told exactly what its request returns
   in its turn on the log as a value; and whenever the lock is free the segments
   stand for the log after all those turns.
   */
  lemma Linearizes(start: Writers, steps: seq<Step>, w: Writers)
    requires Initial(start) && Reaches(start, steps, w)
    ensures var log, turns := StateOf(start), TurnsOf(start, steps);
            && LogInv(log) && Fits(log, turns) && TurnsAre(w, turns)
            && (w.lock == None ==> StateOf(w) == After(log, turns))
  {
    hide WritersInv, CallsInv, Stands, LogInv, StateOf, Initial, Reaches, Fits, After;
    InitialInv(start);
    InitialStands(start);
    RunStands(start, StateOf(start), steps, w);
    StandsInv(w, After(StateOf(start), TurnsOf(start, steps)));
    NoTurns(start);
    RunTurns(start, [], steps, w);
    assert [] + TurnsOf(start, steps) == TurnsOf(start, steps);
  }

  lemma NoTurns(w: Writers)
    requires Initial(w)
    ensures TurnsAre(w, [])
  {
    hide SegsInv, Complete;
  }

  lemma {:induction false} TurnsOfBoth(w: Writers, a: seq<Step>, m: Writers, b: seq<Step>)
    requires Reaches(w, a, m)
    ensures TurnsOf(w, a + b) == TurnsOf(w, a) + TurnsOf(m, b)
    decreases a
  {
    hide TurnOf, Next, Enabled;
    if a == [] {
      assert a + b == b;
    } else {
      TurnsOfBoth(Next(w, a[0]), a[1..], m, b);
      assert (a + b)[1..] == a[1..] + b;
    }
  }

  lemma {:induction false} ReachesBoth(w: Writers, a: seq<Step>, m: Writers, b: seq<Step>, v: Writers)
    requires Reaches(w, a, m) && Reaches(m, b, v)
    ensures Reaches(w, a + b, v)
    decreases a
  {
    hide Next, Enabled;
    if a == [] {
      assert a + b == b;
    } else {
      ReachesBoth(Next(w, a[0]), a[1..], m, b, v);
      assert (a + b)[1..] == a[1..] + b;
    }
  }

  /** And that order agrees with time: a call that had returned before another was made has its turn before it. */
  lemma TurnsInTime(start: Writers, before: seq<Step>, m: Writers, rest: seq<Step>, w: Writers, t: nat, u: nat)
    requires Initial(start) && Reaches(start, before, m) && Reaches(m, rest, w)
    requires t in m.threads && m.threads[t].Returned?
    requires u !in m.threads && u in w.threads && w.threads[u].Returned?
    ensures var turns := TurnsOf(start, before + rest);
            exists i, j :: 0 <= i < j < |turns| && turns[i].thread == t && turns[j].thread == u
  {
    hide Initial, Reaches, Fits, After, StateOf, LogInv;
    ReachesBoth(start, before, m, rest, w);
    TurnsOfBoth(start, before, m, rest);
    Linearizes(start, before, m);
    Linearizes(start, before + rest, w);
    var early, turns := TurnsOf(start, before), TurnsOf(start, before + rest);
    var i :| 0 <= i < |early| && early[i].thread == t;
    var j :| 0 <= j < |turns| && turns[j].thread == u;
    forall k | 0 <= k < |early|
      ensures turns[k].thread != u
    {
      assert turns[k] == early[k] && early[k].thread in m.threads;
    }
    assert turns[i] == early[i];
  }

  /**
   An append raises in its turn exactly if its record cannot be encoded there, or
   the tail is closed and its file is empty or has room for the record's frame;
   otherwise it gets the next offset.
   */
  lemma RaisesExactly(start: Writers, steps: seq<Step>, w: Writers, i: nat)
    requires Initial(start) && Reaches(start, steps, w)
    requires i < |TurnsOf(start, steps)| && TurnsOf(start, steps)[i].request.AppendRequest?
    ensures var turns := TurnsOf(start, steps);
            var log := After(StateOf(start), turns[..i]);
            && LogInv(log) && log.segs != []
            && AllEncodable(Tail(log).records)
            && var r, file := RecordFor(turns[i].request, LogNext(log)), EncodeAll(Tail(log).records);
            && (turns[i].result.Err? <==>
                  !Encodable(r) || (!Tail(log).open && (file == [] || |file| + |Frame(r)| <= log.maxBytes)))
            && (turns[i].result.Ok? ==> turns[i].result.value == Some(LogNext(log)))
  {
    hide Initial, Reaches, StateOf, Encodable, HasRoom, Size, AppendLog, LogInv, TurnsAre, Frame, EncodeAll, Total;
    var turns := TurnsOf(start, steps);
    Linearizes(start, steps, w);
    TurnAlone(StateOf(start), turns, i);
    var log, request := After(StateOf(start), turns[..i]), turns[i].request;
    AppendRolls(log, request.key, request.value, request.timestamp);
  }

  /** A sync raises in its turn exactly if the tail is closed; a roll and a close never do. */
  lemma OthersRaise(start: Writers, steps: seq<Step>, w: Writers, i: nat)
    requires Initial(start) && Reaches(start, steps, w)
    requires i < |TurnsOf(start, steps)| && !TurnsOf(start, steps)[i].request.AppendRequest?
    ensures var turns := TurnsOf(start, steps);
            var log := After(StateOf(start), turns[..i]);
            && LogInv(log) && log.segs != []
            && turns[i].result == if turns[i].request.SyncRequest? && !Tail(log).open then Err(ValueError) else Ok(None)
  {
    hide Initial, Reaches, StateOf, RollLog, CloseLog, LogInv, TurnsAre, Tail;
    var turns := TurnsOf(start, steps);
    Linearizes(start, steps, w);
    TurnAlone(StateOf(start), turns, i);
  }

  /** One turn of an order, between those before and those after it. */
  lemma TurnAlone(log: LogState, turns: seq<Turn>, i: nat)
    requires LogInv(log) && i < |turns| && Fits(log, turns)
    ensures var at := After(log, turns[..i]);
            && LogInv(at) && at.segs != [] && FirstOffset(at) == FirstOffset(log)
            && turns[i].result == Apply(at, turns[i].request).1
            && After(log, turns[..i + 1]) == Apply(at, turns[i].request).0
            && After(log, turns) == After(Apply(at, turns[i].request).0, turns[i + 1..])
            && Fits(Apply(at, turns[i].request).0, turns[i + 1..])
  {
    hide LogInv, Apply, FirstOffset;
    LogNotEmpty(log);
    AfterKeeps(log, turns[..i]);
    assert turns == turns[..i] + turns[i..] && turns[..i + 1] == turns[..i] + [turns[i]];
    AfterBoth(log, turns[..i], turns[i..]);
    AfterBoth(log, turns[..i], [turns[i]]);
    assert turns[i..][1..] == turns[i + 1..];
  }

  lemma LogNotEmpty(log: LogState)
    requires LogInv(log)
    ensures log.segs != []
  {
    hide AllInv, AllIndexable, Linked, Sealed;
  }

  // ------------------------------------------------------------------ crashes

  /** The operation of the log that a request asks for. */
  function OpOf(request: Request): Crashes.Step {
    match request
    case AppendRequest(key, value, timestamp) => Crashes.Append(key, value, timestamp)
    case RollRequest => Crashes.Roll
    case SyncRequest => Crashes.Sync
    case CloseRequest => Crashes.Close
  }

  function OpsOf(turns: seq<Turn>): (ops: seq<Crashes.Step>)
    ensures |ops| == |turns|
    ensures forall i :: 0 <= i < |turns| ==> ops[i] == OpOf(turns[i].request)
  {
    seq(|turns|, i requires 0 <= i < |turns| => OpOf(turns[i].request))
  }

  lemma OpApplies(log: LogState, request: Request)
    requires LogInv(log) && log.segs != []
    ensures Crashes.Enabled(log, OpOf(request)) && Crashes.Next(log, OpOf(request)) == Apply(log, request).0
  {
    hide AppendLog, RollLog, SyncLog, CloseLog, LogInv;
  }

  lemma {:induction false} TurnsReach(log: LogState, turns: seq<Turn>)
    requires LogInv(log)
    ensures Crashes.Reaches(log, OpsOf(turns), After(log, turns))
    decreases turns
  {
    hide LogInv, Apply, Crashes.Next, Crashes.Enabled, OpOf;
    LogNotEmpty(log);
    if turns == [] {
    } else {
      ApplyKeeps(log, turns[0].request);
      OpApplies(log, turns[0].request);
      TurnsReach(Apply(log, turns[0].request).0, turns[1..]);
      assert OpsOf(turns)[1..] == OpsOf(turns[1..]);
    }
  }

  lemma {:induction false} OpsReachBoth(s: LogState, a: seq<Crashes.Step>, m: LogState, b: seq<Crashes.Step>, t: LogState)
    requires Crashes.Reaches(s, a, m) && Crashes.Reaches(m, b, t)
    ensures Crashes.Reaches(s, a + b, t)
    decreases a
  {
    hide LogInv, Crashes.Next, Crashes.Enabled;
    if a == [] {
      assert a + b == b;
    } else {
      LogNotEmpty(s);
      OpsReachBoth(Crashes.Next(s, a[0]), a[1..], m, b, t);
      assert (a + b)[1..] == a[1..] + b;
    }
  }

  /** What the call inside the lock has done so far, as an operation of the log. */
  function Pending(w: Writers, log: LogState): seq<Crashes.Step>
    requires log.segs != []
  {
    match Holder(w)
    case Some(Sealing(_, _)) => [Crashes.Close]
    case Some(Ready(_, record)) => if HasRoom(Tail(log), log.maxBytes, record) then [] else [Crashes.Roll]
    case Some(Writing(request, _, _, _)) => [OpOf(request)]
    case Some(Leaving(request, _)) => [OpOf(request)]
    case _ => []
  }

  lemma PendingReaches(w: Writers, log: LogState)
    requires Stands(w, log)
    ensures log.segs != [] && Crashes.Reaches(log, Pending(w, log), StateOf(w))
    ensures |Pending(w, log)| <= 1 && (w.lock == None ==> Pending(w, log) == [])
    ensures forall op :: op in Pending(w, log) ==> !op.Crash?
  {
    hide LogInv, StateOf, Stands, Pending, Crashes.Next, Crashes.Enabled;
    StandsInv(w, log);
    PendingIs(w, log);
    var ops := Pending(w, log);
    if ops != [] {
      PendingApplies(w, log);
      assert ops[1..] == [];
    }
  }

  lemma PendingIs(w: Writers, log: LogState)
    requires Stands(w, log)
    ensures log.segs != []
    ensures |Pending(w, log)| <= 1 && (w.lock == None ==> Pending(w, log) == [])
    ensures forall op :: op in Pending(w, log) ==> !op.Crash?
    ensures Pending(w, log) == [] ==> StateOf(w) == log
  {
    hide LogInv, StateOf, Apply, HasRoom, RollLog, CloseLog, LogNext;
  }

  lemma PendingApplies(w: Writers, log: LogState)
    requires Stands(w, log) && Pending(w, log) != []
    ensures Crashes.Enabled(log, Pending(w, log)[0]) && StateOf(w) == Crashes.Next(log, Pending(w, log)[0])
  {
    hide LogInv, StateOf, AppendLog, RollLog, SyncLog, CloseLog, HasRoom, LogNext, Crashes.Next, Crashes.Enabled;
    OpApplies(log, RollRequest);
    OpApplies(log, CloseRequest);
    if Holder(w).Some? && (Holder(w).value.Writing? || Holder(w).value.Leaving?) {
      OpApplies(log, Holder(w).value.request);
    }
  }

  /**
   At any moment, not only between calls, the segments stand for a log that a
   sequential run reaches: the operations in turn, then at most the one begun.
   What is proved of such runs, whatever follows them, holds for the threads.
   */
  lemma AnyMoment(start: Writers, steps: seq<Step>, w: Writers) returns (begun: seq<Crashes.Step>)
    requires Initial(start) && Reaches(start, steps, w)
    ensures |begun| <= 1 && (w.lock == None ==> begun == []) && forall op :: op in begun ==> !op.Crash?
    ensures LogInv(StateOf(start))
    ensures Crashes.Reaches(After(StateOf(start), TurnsOf(start, steps)), begun, StateOf(w))
    ensures Crashes.Reaches(StateOf(start), OpsOf(TurnsOf(start, steps)) + begun, StateOf(w))
  {
    hide WritersInv, CallsInv, Stands, LogInv, StateOf, Initial, Reaches, After, Pending, Crashes.Reaches;
    InitialInv(start);
    InitialStands(start);
    RunStands(start, StateOf(start), steps, w);
    var log, turns := StateOf(start), TurnsOf(start, steps);
    StandsInv(w, After(log, turns));
    PendingReaches(w, After(log, turns));
    begun := Pending(w, After(log, turns));
    TurnsReach(log, turns);
    OpsReachBoth(log, OpsOf(turns), After(log, turns), begun, StateOf(w));
  }

  /** What a power cut leaves of the files then is what `Opening` says a crash of that log leaves. */
  lemma CrashLeaves(w: Writers, cut: nat, i: nat)
    requires WritersInv(w) && LogInv(StateOf(w)) && w.segs != []
    requires Active(w).synced <= cut <= |Active(w).bytes| && i < |w.segs|
    ensures var log := StateOf(w);
            && log.segs != [] && Tail(log).synced <= cut <= Position(Tail(log))
            && var files := CrashFiles(log, cut);
            && w.segs[i].base in files
            && files[w.segs[i].base].bytes == (if i == |w.segs| - 1 then w.segs[i].bytes[..cut] else w.segs[i].bytes)
  {
    hide Stored, Total, Indexable, IndexOf, EncodeAll, Linked, Sealed, FilesOf, AckInv, LockInv, AllRecords, Roomy;
    var log := StateOf(w);
    TailBytes(w);
    BasesSorted(log.segs);
    FilesOfAt(log.segs);
    assert log.segs[i].base == w.segs[i].base;
    assert i < |w.segs| - 1 ==> Complete(w.segs[i]);
  }

  lemma TailBytes(w: Writers)
    requires WritersInv(w)
    ensures w.segs != [] && AllEncodable(Active(w).records)
    ensures Active(w).bytes <= EncodeAll(Active(w).records) && |Active(w).bytes| <= Total(Active(w).records)
  {
    hide Indexable, IndexOf, AckInv, LockInv, Roomy, Encodable;
    SegsNotEmpty(w.segs);
    EncodeAllLength(Active(w).records);
  }

  /**
   Durability beside other threads. A record acknowledged in a turn before that
   of a sync or a close is in the log for ever: whatever calls run after that,
   at whatever moment a crash comes, and whatever appends, rolls, syncs, closes
   and further crashes follow it, the record is there under its offset.
   */
  lemma SyncedSurvives(start: Writers, steps: seq<Step>, w: Writers, i: nat, j: nat,
                       more: seq<Crashes.Step>, t: LogState)
    requires Initial(start) && Reaches(start, steps, w)
    requires i < j < |TurnsOf(start, steps)|
    requires var a := TurnsOf(start, steps)[i]; a.request.AppendRequest? && a.result.Ok? && a.result.value.Some?
    requires var b := TurnsOf(start, steps)[j]; b.request.SyncRequest? || b.request.CloseRequest?
    requires Crashes.Reaches(StateOf(w), more, t)
    ensures LogInv(t) && t.segs != [] && FirstOffset(t) == start.segs[0].base
    ensures var a := TurnsOf(start, steps)[i];
            var at := a.result.value.value - FirstOffset(t);
            && 0 <= at < |AllRecords(t.segs)|
            && AllRecords(t.segs)[at] == RecordFor(a.request, a.result.value.value)
  {
    hide Initial, Reaches, LogInv, AllRecords, FirstOffset, Apply, After, Fits, TurnsAre, OpsOf, Crashes.Reaches, Crashes.DurableCount;
    var log, turns := StateOf(start), TurnsOf(start, steps);
    Linearizes(start, steps, w);
    var begun := AnyMoment(start, steps, w);
    TurnAlone(log, turns, j);
    var at := After(log, turns[..j]);
    var m, rest := Apply(at, turns[j].request).0, turns[j + 1..];
    ApplyKeeps(at, turns[j].request);
    TurnsReach(m, rest);
    OpsReachBoth(m, OpsOf(rest), After(log, turns), begun, StateOf(w));
    OpsReachBoth(m, OpsOf(rest) + begun, StateOf(w), more, t);
    AllDurable(at, turns[j].request);
    Crashes.DurableForever(m, OpsOf(rest) + begun + more, t);
    LogNotEmpty(t);
    AckedStays(log, turns, i, j);
    StartOffset(start);
    assert AllRecords(m.segs)[..|AllRecords(m.segs)|] == AllRecords(m.segs);
  }

  lemma StartOffset(w: Writers)
    requires Initial(w)
    ensures w.segs != [] && StateOf(w).segs != [] && FirstOffset(StateOf(w)) == w.segs[0].base
  {
    hide SegsInv, Complete;
    SegsNotEmpty(w.segs);
  }

  lemma AllDurable(log: LogState, request: Request)
    requires LogInv(log) && log.segs != [] && (request.SyncRequest? || request.CloseRequest?)
    ensures var m := Apply(log, request).0;
            m.segs != [] && Crashes.DurableCount(m) == |AllRecords(m.segs)|
  {
    hide LogInv, AllRecords, SyncLog, CloseLog, Crashes.DurableCount;
    ApplyKeeps(log, request);
    Crashes.StepSync(log);
    Crashes.StepClose(log);
  }

  /** An acknowledged record is where its offset says, from its turn on. */
  lemma AckedStays(log: LogState, turns: seq<Turn>, i: nat, j: nat)
    requires LogInv(log) && Fits(log, turns) && i < j < |turns|
    requires turns[i].request.AppendRequest? && turns[i].result.Ok? && turns[i].result.value.Some?
    ensures var m := After(log, turns[..j]);
            && LogInv(m) && m.segs != [] && FirstOffset(m) == FirstOffset(log)
            && var at := turns[i].result.value.value - FirstOffset(log);
            && 0 <= at < |AllRecords(m.segs)|
            && AllRecords(m.segs)[at] == RecordFor(turns[i].request, turns[i].result.value.value)
  {
    hide AllInv, AllIndexable, Linked, Sealed, Stored, AllRecords, AppendLog, FirstOffset, LogNext, Encodable;
    TurnAlone(log, turns, i);
    var before, request := After(log, turns[..i]), turns[i].request;
    AppendOutcome(before, request.key, request.value, request.timestamp);
    Crashes.ChainNext(before);
    var m := Apply(before, request).0;
    AfterKeeps(m, turns[i + 1..j]);
    AfterKeeps(log, turns[..i + 1]);
    assert turns[..j] == turns[..i + 1] + turns[i + 1..j];
    AfterBoth(log, turns[..i + 1], turns[i + 1..j]);
  }

  /** The roll arithmetic, at any moment of any run of threads. */
  lemma TightThreads(start: Writers, steps: seq<Step>, w: Writers)
    requires Initial(start) && Reaches(start, steps, w) && Tight(StateOf(start).segs, start.maxBytes)
    ensures w.maxBytes == start.maxBytes && Tight(StateOf(w).segs, w.maxBytes)
  {
    hide Initial, Reaches, LogInv, After, Tight, Crashes.Reaches, TurnsOf, Views;
    var begun := AnyMoment(start, steps, w);
    Crashes.TightForever(StateOf(start), OpsOf(TurnsOf(start, steps)) + begun, StateOf(w));
  }
}
