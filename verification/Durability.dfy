/**
 When a partition is fsynced, and what a power cut can therefore take: the sync
 policy, and the append of one topic partition that consults it.
 */
module Durability {
  import opened Bytes
  import opened Records
  import opened Frames
  import opened Indexes
  import opened Segments
  import opened Chains
  import opened Opening
  import opened Crashes
  import opened Logs

  /** Two optional thresholds, or-ed; neither set means never. */
  datatype SyncPolicy = SyncPolicy(records: Option<int>, millis: Option<int>) {
    predicate ShouldSync(appends: int, elapsed: real) {
      if records.Some? && appends >= records.value then true
      else if millis.Some? && elapsed >= millis.value as real then true
      else false
    }
  }

  /** One open log and the number of appends since it was last synced by policy. */
  datatype PartitionState = PartitionState(log: LogState, appends: nat)

  datatype Event =
    | Commit(key: Option<seq<byte>>, value: Option<seq<byte>>, timestamp: int, elapsed: real)
    | SyncTopic            // an explicit sync of the topic, which resets the counter
    | SyncLogOnly          // a sync of the log behind the counter's back
    | RollNow              // an operator's roll
    | CloseNow

  function CommitTo(p: PartitionState, policy: SyncPolicy, key: Option<seq<byte>>, value: Option<seq<byte>>,
                    timestamp: int, elapsed: real): (PartitionState, Result<int>)
    requires p.log.segs != []
  {
    var (log, r) := AppendLog(p.log, key, value, timestamp);
    if r.Err? then (PartitionState(log, p.appends), r)
    else if !policy.ShouldSync(p.appends + 1, elapsed) then (PartitionState(log, p.appends + 1), r)
    else
      var (synced, out) := SyncLog(log);
      match out
      case Ok(_) => (PartitionState(synced, 0), r)
      case Err(e) => (PartitionState(synced, p.appends + 1), Err(e))
  }

  class Partition {
    const log: Log
    var appends: nat

    constructor (log: Log)
      ensures this.log == log && appends == 0
    {
      this.log := log;
      this.appends := 0;
    }

    ghost function State(): PartitionState
      reads this, log
    {
      PartitionState(log.state, appends)
    }

    lemma Apart()
      ensures (log as object) != this && (log.dir as object) != this
      ensures forall t :: t in log.segments ==> (t as object) != this
      ensures forall x :: x in IndexesOf(log.segments) ==> (x as object) != this
    {
    }

    /** Appends, and fsyncs when the policy says so; `elapsed` is what the clock reports since the last sync. */
    method Append(policy: SyncPolicy, key: Option<seq<byte>>, value: Option<seq<byte>>, timestamp: int, elapsed: real)
      returns (r: Result<int>)
      requires log.Valid()
      modifies this, log, log.dir, log.segments, IndexesOf(log.segments)
      ensures log.Valid()
      ensures (State(), r) == CommitTo(old(State()), policy, key, value, timestamp, elapsed)
      ensures r.Ok? ==>
                && r.value == old(LogNext(log.state))
                && AllRecords(log.state.segs) == old(AllRecords(log.state.segs)) + [Record(r.value, timestamp, key, value)]
      ensures r.Err? ==> AllRecords(log.state.segs) == old(AllRecords(log.state.segs))
    {
      hide AppendLog, SyncLog, LogInv, Log.Valid, LogNext, AllRecords;
      KeepsSegments(log);
      ghost var before := State();
      r := log.Append(key, value, timestamp);
      if r.Ok? {
        Apart();
        appends := appends + 1;
        if policy.ShouldSync(appends, elapsed) {
          KeepsSegments(log);
          var out := log.Sync();
          KeepsSegments(log);
          if out.Err? {
            r := Err(out.error);
          } else {
            appends := 0;
          }
        }
      }
      CommitExactly(before, policy, key, value, timestamp, elapsed);
    }

    method Sync() returns (r: Result<()>)
      requires log.Valid()
      modifies this, log, log.dir, log.segments, IndexesOf(log.segments)
      ensures log.Valid()
      ensures State() == Happens(old(State()), SyncPolicy(None, None), SyncTopic)
      ensures r == SyncLog(old(log.state)).1
    {
      hide SyncLog, LogInv, Log.Valid;
      KeepsSegments(log);
      r := log.Sync();
      KeepsSegments(log);
      if r.Ok? {
        appends := 0;
      }
    }
  }

  lemma KeepsSegments(log: Log)
    requires log.Valid()
    ensures LogInv(log.state) && log.state.segs != []
  {
    hide AllInv, AllIndexable, Linked, Sealed, StandFor;
  }

  function Happens(p: PartitionState, policy: SyncPolicy, event: Event): PartitionState
    requires p.log.segs != []
  {
    match event
    case Commit(key, value, timestamp, elapsed) => CommitTo(p, policy, key, value, timestamp, elapsed).0
    case SyncTopic =>
      var (synced, out) := SyncLog(p.log);
      PartitionState(synced, if out.Ok? then 0 else p.appends)
    case SyncLogOnly => PartitionState(SyncLog(p.log).0, p.appends)
    case RollNow => PartitionState(RollLog(p.log), p.appends)
    case CloseNow => PartitionState(CloseLog(p.log), p.appends)
  }

  /** Records a power cut could take. */
  function Unsynced(s: LogState): int
    requires s.segs != []
  {
    |AllRecords(s.segs)| - DurableCount(s)
  }

  /** A record just appended is in an open tail, so the sync that may follow cannot fail. */
  lemma SyncAfterAppend(s: LogState, key: Option<seq<byte>>, value: Option<seq<byte>>, timestamp: int)
    requires LogInv(s) && AppendLog(s, key, value, timestamp).1.Ok?
    ensures var t := AppendLog(s, key, value, timestamp).0; t.segs != [] && SyncLog(t).1 == Ok(())
  {
    hide Encode, Extend, IndexOf, Stored, Size, Total, Linked, Sealed, AllRecords, Encodable, AllInv, AllIndexable;
  }

  /**
   What an append to a topic returns and leaves. It returns what the append to the
   log returns: the next offset, under which exactly the record asked for is now
   last; or that append's error, and then no record and no count changes. An
   append that succeeds makes the whole log durable and starts the count over if
   and only if one of the thresholds that are set is reached; otherwise it
   does no more than count.
   */
  lemma CommitExactly(p: PartitionState, policy: SyncPolicy, key: Option<seq<byte>>, value: Option<seq<byte>>,
                      timestamp: int, elapsed: real)
    requires LogInv(p.log)
    ensures var (q, r) := CommitTo(p, policy, key, value, timestamp, elapsed);
            var (after, offset) := AppendLog(p.log, key, value, timestamp);
            && LogInv(q.log) && q.log.segs != [] && r == offset
            && (r.Err? ==> q.appends == p.appends && AllRecords(q.log.segs) == AllRecords(p.log.segs) && LogNext(q.log) == LogNext(p.log))
            && (r.Ok? ==>
                  && r.value == LogNext(p.log)
                  && AllRecords(q.log.segs) == AllRecords(p.log.segs) + [Record(r.value, timestamp, key, value)]
                  && if || (policy.records.Some? && p.appends + 1 >= policy.records.value)
                        || (policy.millis.Some? && elapsed >= policy.millis.value as real)
                     then q.appends == 0 && Unsynced(q.log) == 0
                     else q.appends == p.appends + 1 && q.log == after)
  {
    hide AppendLog, SyncLog, DurableCount, FirstOffset, AllInv, AllIndexable, Linked, Sealed, Stored, AllRecords, LogNext, Encodable;
    AppendOutcome(p.log, key, value, timestamp);
    var (after, r) := AppendLog(p.log, key, value, timestamp);
    if r.Ok? {
      SyncAfterAppend(p.log, key, value, timestamp);
      SyncAll(after);
    }
  }

  lemma SyncAll(s: LogState)
    requires LogInv(s)
    ensures var t := SyncLog(s).0;
            LogInv(t) && t.segs != [] && AllRecords(t.segs) == AllRecords(s.segs) && Unsynced(t) == 0
  {
    hide SyncLog, DurableCount, FirstOffset, AllInv, AllIndexable, Linked, Sealed, Stored, AllRecords;
    SyncKeepsChain(s);
    StepSync(s);
  }

  /** An explicit sync of a topic makes all of an open log durable and starts the count over; beside a closed one it changes nothing. */
  lemma SyncTopicExactly(p: PartitionState, policy: SyncPolicy)
    requires LogInv(p.log) && p.log.segs != []
    ensures var q := Happens(p, policy, SyncTopic);
            && LogInv(q.log) && q.log.segs != [] && AllRecords(q.log.segs) == AllRecords(p.log.segs)
            && Unsynced(q.log) == 0
            && if Tail(p.log).open then q.appends == 0 else q == p
  {
    hide DurableCount, FirstOffset, AllInv, AllIndexable, Linked, Sealed, Stored, AllRecords;
    SyncAll(p.log);
  }

  /** An append adds at most one unsynced record; nothing else adds any. */
  lemma EventBounds(p: PartitionState, policy: SyncPolicy, event: Event)
    requires LogInv(p.log)
    ensures var q := Happens(p, policy, event);
            && LogInv(q.log)
            && q.log.segs != []
            && (|| (Unsynced(q.log) <= 0 && (q.appends == 0 || q.appends == p.appends))
                || (Unsynced(q.log) <= Unsynced(p.log) && q.appends == p.appends)
                || (&& Unsynced(q.log) <= Unsynced(p.log) + 1 && q.appends == p.appends + 1
                    && event.Commit? && !policy.ShouldSync(q.appends, event.elapsed)))
  {
    hide AppendLog, SyncLog, RollLog, CloseLog, DurableCount, FirstOffset, AllInv, AllIndexable, Linked, Sealed, Stored;
    var log := p.log;
    match event {
      case Commit(key, value, timestamp, elapsed) =>
        StepAppend(log, Append(key, value, timestamp));
        AppendOutcome(log, key, value, timestamp);
        var (after, r) := AppendLog(log, key, value, timestamp);
        if r.Ok? && policy.ShouldSync(p.appends + 1, elapsed) {
          SyncAfterAppend(log, key, value, timestamp);
          StepSync(after);
        }
      case SyncTopic => StepSync(log);
      case SyncLogOnly => StepSync(log);
      case RollNow => StepRoll(log);
      case CloseNow => StepClose(log);
    }
  }

  ghost predicate Runs(p: PartitionState, policy: SyncPolicy, events: seq<Event>, q: PartitionState)
    decreases events
  {
    if events == [] then p == q
    else LogInv(p.log) && Runs(Happens(p, policy, events[0]), policy, events[1..], q)
  }

  /** Carried-over unsynced records aside, there are never more unsynced records than counted appends. */
  lemma {:induction false} CountedRuns(p: PartitionState, policy: SyncPolicy, events: seq<Event>, q: PartitionState,
                                       n: int, carried: nat)
    requires LogInv(p.log) && Runs(p, policy, events, q)
    requires policy.records == Some(n) && p.appends < n
    requires Unsynced(p.log) <= carried + p.appends
    ensures LogInv(q.log) && q.appends < n
    ensures Unsynced(q.log) <= carried + q.appends
    decreases events
  {
    hide Happens, Unsynced, AllInv, AllIndexable, Linked, Sealed;
    if events == [] {
    } else {
      EventBounds(p, policy, events[0]);
      CountedRuns(Happens(p, policy, events[0]), policy, events[1..], q, n, carried);
    }
  }

  /**
   The durability bound. Under a policy of n records, n >= 1, from a freshly
   opened partition with `carried` unsynced records (none, when its directory
   is durable), after any sequential appends, syncs, rolls and closes fewer than
   carried + n records are unsynced; so opening again after a power cut at any
   byte of the tail finds all but fewer than carried + n of the records.
   */
  lemma PowerCutBound(s: LogState, policy: SyncPolicy, events: seq<Event>, q: PartitionState,
                      n: int, carried: nat, cut: nat, maxBytes: int)
    requires LogInv(s) && Unsynced(s) <= carried
    requires policy.records == Some(n) && n >= 1
    requires Runs(PartitionState(s, 0), policy, events, q)
    requires q.log.segs != []
    requires Tail(q.log).synced <= cut <= Position(Tail(q.log)) && ValidLimit(maxBytes)
    ensures Unsynced(q.log) < carried + n
    ensures LogInv(q.log)
    ensures var reopened := OpenLog(CrashFiles(q.log, cut), Bases(q.log.segs), maxBytes);
            && reopened.Ok? && LogInv(reopened.value)
            && AllRecords(reopened.value.segs) <= AllRecords(q.log.segs)
            && |AllRecords(q.log.segs)| - |AllRecords(reopened.value.segs)| < carried + n
  {
    hide OpenLog, CrashFiles, DurableCount, AllInv, AllIndexable, Linked, Sealed, FirstOffset;
    CountedRuns(PartitionState(s, 0), policy, events, q, n, carried);
    ReopenAfterCrash(q.log, cut, maxBytes);
    StepCrash(q.log, Crash(cut, maxBytes));
  }

  /** A log whose tail has been fsynced to its end carries nothing over. */
  lemma DurableCarriesNothing(s: LogState)
    requires LogInv(s) && Tail(s).synced == Position(Tail(s))
    ensures Unsynced(s) == 0
  {
    hide AllRecords, AllInv, AllIndexable, Linked, Sealed, Whole, Total;
    AllRecordsTail(s, Tail(s));
    WholeOfAll(Tail(s).records);
  }
}
