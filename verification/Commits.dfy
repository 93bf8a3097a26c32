/**
 Appends to one partition of a topic that overlap. The log takes each append and
 each sync whole, as `Linear` proves. What comes after an append is under no lock:
 the count of appends is loaded and stored back, the policy reads it, the log is
 synced, and the count is set to zero, with other calls running in between.
 */
module Commits {
  import opened Bytes
  import opened Records
  import opened Frames
  import opened Segments
  import opened Chains
  import opened Opening
  import opened Crashes
  import opened Durability

  /** Where a call is; `offset` is None for an explicit sync of the topic. */
  datatype Call =
    | Called(key: Option<seq<byte>>, value: Option<seq<byte>>, timestamp: int)
    | Appended(offset: Option<int>)
    | Loaded(offset: Option<int>, count: nat)         // has read the count, has not stored it back
    | Counted(offset: Option<int>)
    | Syncing(offset: Option<int>)
    | Marking(offset: Option<int>, at: nat)           // has synced, has not reset the count; `at` is history
    | Done(result: Result<Option<int>>)

  /** The record an append was asked for. */
  datatype Asked = Asked(key: Option<seq<byte>>, value: Option<seq<byte>>, timestamp: int)

  /**
   `written`, `slipped` and `asked` are history: how many records were written;
   since the last sync by a call, how many of them resets and stores may have
   left out of the count; and what each append was asked for.
   */
  datatype World = World(log: LogState, appends: nat, calls: map<nat, Call>, written: nat, slipped: nat,
                         asked: map<nat, Asked>)

  datatype Step =
    | Ask(t: nat, key: Option<seq<byte>>, value: Option<seq<byte>>, timestamp: int)
    | AskSync(t: nat)
    | Write(t: nat)
    | Load(t: nat)
    | Store(t: nat)
    | Decide(t: nat, elapsed: real)
    | Flush(t: nat)
    | Mark(t: nat)
    | RollNow
    | SyncNow
    | CloseNow

  predicate Enabled(w: World, step: Step) {
    w.log.segs != [] &&
    match step
    case Ask(t, _, _, _) => t !in w.calls
    case AskSync(t) => t !in w.calls
    case Write(t) => t in w.calls && w.calls[t].Called?
    case Load(t) => t in w.calls && w.calls[t].Appended?
    case Store(t) => t in w.calls && w.calls[t].Loaded?
    case Decide(t, _) => t in w.calls && w.calls[t].Counted?
    case Flush(t) => t in w.calls && w.calls[t].Syncing?
    case Mark(t) => t in w.calls && w.calls[t].Marking?
    case _ => true
  }

  function At(w: World, t: nat, c: Call): World {
    w.(calls := w.calls[t := c])
  }

  /** How far a is ahead of b. */
  function Ahead(a: nat, b: nat): nat {
    if a > b then a - b else 0
  }

  function Next(w: World, policy: SyncPolicy, step: Step): World
    requires Enabled(w, step)
  {
    match step
    case Ask(t, key, value, timestamp) =>
      At(w, t, Called(key, value, timestamp)).(asked := w.asked[t := Asked(key, value, timestamp)])
    case AskSync(t) => At(w, t, Syncing(None))
    case Write(t) =>
      var c := w.calls[t];
      var (log, r) := AppendLog(w.log, c.key, c.value, c.timestamp);
      if r.Ok? then At(w, t, Appended(Some(r.value))).(log := log, written := w.written + 1)
      else At(w, t, Done(Err(r.error))).(log := log)
    case Load(t) => At(w, t, Loaded(w.calls[t].offset, w.appends))
    case Store(t) =>
      var c := w.calls[t];
      At(w, t, Counted(c.offset)).(appends := c.count + 1, slipped := w.slipped + Ahead(w.appends, c.count))
    case Decide(t, elapsed) =>
      var offset := w.calls[t].offset;
      At(w, t, if policy.ShouldSync(w.appends, elapsed) then Syncing(offset) else Done(Ok(offset)))
    case Flush(t) =>
      var (log, r) := SyncLog(w.log);
      if r.Ok? then At(w, t, Marking(w.calls[t].offset, w.written)).(log := log, slipped := 0)
      else At(w, t, Done(Err(r.error))).(log := log)
    case Mark(t) =>
      var c := w.calls[t];
      At(w, t, Done(Ok(c.offset))).(appends := 0, slipped := w.slipped + Ahead(w.written, c.at))
    case RollNow => w.(log := RollLog(w.log))
    case SyncNow => w.(log := SyncLog(w.log).0)
    case CloseNow => w.(log := CloseLog(w.log))
  }

  // --------------------------------------------------------------- invariant

  predicate Waits(c: Call) {
    c.Appended? || c.Loaded?
  }

  function Those(calls: map<nat, Call>, p: Call -> bool): set<nat> {
    set t | t in calls && p(calls[t])
  }

  /** Calls whose record is written and not counted yet. */
  function Waiting(calls: map<nat, Call>): set<nat> {
    Those(calls, Waits)
  }

  predicate Runs(c: Call) {
    !c.Done?
  }

  function InFlight(calls: map<nat, Call>): set<nat> {
    Those(calls, Runs)
  }

  /** Calls that have counted and have yet to decide, sync or reset. */
  predicate Watches(c: Call) {
    c.Counted? || c.Syncing? || c.Marking?
  }

  ghost predicate Watched(w: World) {
    exists t :: t in w.calls && Watches(w.calls[t])
  }

  ghost predicate Inv(w: World, n: int, carried: nat) {
    && LogInv(w.log) && w.log.segs != []
    && Unsynced(w.log) <= carried + w.appends + |Waiting(w.calls)| + w.slipped
    && (forall t :: t in w.calls && w.calls[t].Marking? ==>
          w.calls[t].at <= w.written && Unsynced(w.log) <= w.written - w.calls[t].at)
    && (w.appends >= n ==> Watched(w) || Unsynced(w.log) <= |Waiting(w.calls)|)
  }

  /** No call in flight. */
  predicate Quiet(w: World) {
    forall t :: t in w.calls ==> w.calls[t].Done?
  }

  function One(b: bool): nat {
    if b then 1 else 0
  }

  lemma ThoseWith(calls: map<nat, Call>, p: Call -> bool, t: nat, c: Call)
    ensures |Those(calls[t := c], p)| + One(t in calls && p(calls[t])) == |Those(calls, p)| + One(p(c))
  {
    var before, after := Those(calls, p), Those(calls[t := c], p);
    if t in calls && p(calls[t]) {
      assert before == (before - {t}) + {t};
    }
    if p(c) {
      assert after == (before - {t}) + {t};
    } else {
      assert after == before - {t};
    }
  }

  lemma WaitingWith(calls: map<nat, Call>, t: nat, c: Call)
    ensures |Waiting(calls[t := c])| + One(t in calls && Waits(calls[t])) == |Waiting(calls)| + One(Waits(c))
  {
    ThoseWith(calls, Waits, t, c);
  }

  lemma InFlightWith(calls: map<nat, Call>, t: nat, c: Call)
    ensures |InFlight(calls[t := c])| + One(t in calls && Runs(calls[t])) == |InFlight(calls)| + One(Runs(c))
  {
    ThoseWith(calls, Runs, t, c);
  }

  lemma WriteUnsynced(log: LogState, key: Option<seq<byte>>, value: Option<seq<byte>>, timestamp: int)
    requires LogInv(log)
    ensures var (after, r) := AppendLog(log, key, value, timestamp);
            LogInv(after) && after.segs != [] && Unsynced(after) <= Unsynced(log) + One(r.Ok?)
  {
    hide AppendLog, DurableCount, FirstOffset, AllInv, AllIndexable, Linked, Sealed, Stored, AllRecords;
    StepAppend(log, Append(key, value, timestamp));
    AppendOutcome(log, key, value, timestamp);
  }

  lemma SyncUnsynced(log: LogState)
    requires LogInv(log)
    ensures var (after, r) := SyncLog(log);
            LogInv(after) && after.segs != [] && Unsynced(after) <= 0
  {
    hide SyncLog, DurableCount, FirstOffset, AllInv, AllIndexable, Linked, Sealed, Stored, AllRecords;
    StepSync(log);
  }

  lemma RollUnsynced(log: LogState)
    requires LogInv(log)
    ensures LogInv(RollLog(log)) && RollLog(log).segs != [] && Unsynced(RollLog(log)) <= Unsynced(log)
  {
    hide RollLog, DurableCount, FirstOffset, AllInv, AllIndexable, Linked, Sealed, Stored, AllRecords;
    StepRoll(log);
  }

  lemma CloseUnsynced(log: LogState)
    requires LogInv(log)
    ensures LogInv(CloseLog(log)) && CloseLog(log).segs != [] && Unsynced(CloseLog(log)) <= 0
  {
    hide CloseLog, DurableCount, FirstOffset, AllInv, AllIndexable, Linked, Sealed, Stored, AllRecords;
    StepClose(log);
  }

  /** A step of a call, given what it does to the log. */
  lemma CallKeeps(w: World, policy: SyncPolicy, step: Step, n: int, carried: nat)
    requires policy.records == Some(n) && n >= 1
    requires Inv(w, n, carried) && Enabled(w, step)
    requires step.Ask? || step.AskSync? || step.Load? || step.Store? || step.Decide? || step.Mark?
    ensures Inv(Next(w, policy, step), n, carried)
  {
    hide LogInv, Unsynced, Waiting;
    var v := Next(w, policy, step);
    WaitingWith(w.calls, step.t, v.calls[step.t]);
    forall t | t in w.calls && t != step.t
      ensures t in v.calls && v.calls[t] == w.calls[t]
    {
    }
    if v.appends >= n && (step.Store? || step.Decide? || step.AskSync?) {
      if Watches(v.calls[step.t]) {
        assert Watched(v);
      }
    } else if v.appends >= n && Watched(w) {
      var t :| t in w.calls && Watches(w.calls[t]);
      assert t in v.calls && Watches(v.calls[t]);
    }
  }

  lemma WriteKeeps(w: World, policy: SyncPolicy, t: nat, n: int, carried: nat)
    requires Inv(w, n, carried) && Enabled(w, Write(t))
    ensures Inv(Next(w, policy, Write(t)), n, carried)
  {
    hide LogInv, Unsynced, Waiting, AppendLog;
    var v := Next(w, policy, Write(t));
    WriteUnsynced(w.log, w.calls[t].key, w.calls[t].value, w.calls[t].timestamp);
    WaitingWith(w.calls, t, v.calls[t]);
    if Watched(w) {
      var u :| u in w.calls && Watches(w.calls[u]);
      assert u in v.calls && Watches(v.calls[u]);
    }
  }

  lemma FlushKeeps(w: World, policy: SyncPolicy, t: nat, n: int, carried: nat)
    requires Inv(w, n, carried) && Enabled(w, Flush(t))
    ensures Inv(Next(w, policy, Flush(t)), n, carried)
  {
    hide LogInv, Unsynced, Waiting, SyncLog;
    SyncUnsynced(w.log);
    WaitingWith(w.calls, t, Next(w, policy, Flush(t)).calls[t]);
  }

  lemma LogKeeps(w: World, policy: SyncPolicy, step: Step, n: int, carried: nat)
    requires Inv(w, n, carried) && Enabled(w, step) && (step.RollNow? || step.SyncNow? || step.CloseNow?)
    ensures Inv(Next(w, policy, step), n, carried)
  {
    hide LogInv, Unsynced, Waiting, SyncLog, RollLog, CloseLog;
    RollUnsynced(w.log);
    SyncUnsynced(w.log);
    CloseUnsynced(w.log);
    WaitingNotNegative(w.calls);
    var v := Next(w, policy, step);
    assert Watched(w) ==> Watched(v);
  }

  lemma WaitingNotNegative(calls: map<nat, Call>)
    ensures |Waiting(calls)| >= 0
  {
  }

  lemma StepKeeps(w: World, policy: SyncPolicy, step: Step, n: int, carried: nat)
    requires policy.records == Some(n) && n >= 1
    requires Inv(w, n, carried) && Enabled(w, step)
    ensures Inv(Next(w, policy, step), n, carried)
  {
    hide Inv, Next, Enabled;
    match step
    case Write(t) => WriteKeeps(w, policy, t, n, carried);
    case Flush(t) => FlushKeeps(w, policy, t, n, carried);
    case RollNow => LogKeeps(w, policy, step, n, carried);
    case SyncNow => LogKeeps(w, policy, step, n, carried);
    case CloseNow => LogKeeps(w, policy, step, n, carried);
    case _ => CallKeeps(w, policy, step, n, carried);
  }

  // -------------------------------------------------------------------- runs

  /** A call starts only while fewer than k others are in flight. */
  predicate Admitted(w: World, step: Step, k: nat) {
    step.Ask? || step.AskSync? ==> |InFlight(w.calls)| < k
  }

  ghost predicate Reaches(w: World, policy: SyncPolicy, k: nat, steps: seq<Step>, v: World)
    decreases steps
  {
    if steps == [] then w == v
    else Enabled(w, steps[0]) && Admitted(w, steps[0], k) && Reaches(Next(w, policy, steps[0]), policy, k, steps[1..], v)
  }

  lemma {:induction false} RunKeeps(w: World, policy: SyncPolicy, k: nat, steps: seq<Step>, v: World, n: int, carried: nat)
    requires policy.records == Some(n) && n >= 1
    requires Inv(w, n, carried) && Reaches(w, policy, k, steps, v)
    ensures Inv(v, n, carried)
    decreases steps
  {
    hide Inv, Next, Enabled, Admitted;
    if steps == [] {
    } else {
      StepKeeps(w, policy, steps[0], n, carried);
      RunKeeps(Next(w, policy, steps[0]), policy, k, steps[1..], v, n, carried);
    }
  }

  /** A partition as it is opened, with at most `carried` of its records unsynced. */
  ghost predicate Opened(w: World, carried: nat) {
    LogInv(w.log) && w.log.segs != [] && Unsynced(w.log) <= carried && w == World(w.log, 0, map[], 0, 0, map[])
  }

  lemma OpenedInv(w: World, n: int, carried: nat)
    requires Opened(w, carried) && n >= 1
    ensures Inv(w, n, carried)
  {
    hide LogInv, Unsynced;
  }

  lemma QuietWaiting(w: World)
    requires Quiet(w)
    ensures |Waiting(w.calls)| == 0 && |InFlight(w.calls)| == 0 && !Watched(w)
  {
    assert Waiting(w.calls) == {} && InFlight(w.calls) == {};
  }

  /** With no call in flight, fewer than n records are unsynced, besides those carried in and those that slipped the count. */
  lemma QuietBound(w: World, n: int, carried: nat)
    requires Inv(w, n, carried) && Quiet(w) && n >= 1
    ensures Unsynced(w.log) < carried + n + w.slipped
  {
    hide LogInv, Unsynced, Waiting, InFlight;
    QuietWaiting(w);
  }

  /** What a power cut at any byte of the tail leaves of a log with few unsynced records. */
  lemma CutBound(log: LogState, bound: int, cut: nat, maxBytes: int)
    requires LogInv(log) && log.segs != [] && Unsynced(log) < bound
    requires Tail(log).synced <= cut <= Position(Tail(log)) && ValidLimit(maxBytes)
    ensures var reopened := OpenLog(CrashFiles(log, cut), Bases(log.segs), maxBytes);
            && reopened.Ok? && LogInv(reopened.value)
            && AllRecords(reopened.value.segs) <= AllRecords(log.segs)
            && |AllRecords(log.segs)| - |AllRecords(reopened.value.segs)| < bound
  {
    hide OpenLog, CrashFiles, DurableCount, AllInv, AllIndexable, Linked, Sealed, FirstOffset;
    ReopenAfterCrash(log, cut, maxBytes);
    StepCrash(log, Crash(cut, maxBytes));
  }

  // ------------------------------------------------------- orderly overlaps

  /**
   A step that leaves the count right: no record is written while another call
   is between its sync and its reset, and no store overwrites an increment made
   since its load.
   */
  predicate Orderly(w: World, step: Step) {
    && (step.Write? ==> forall t :: t in w.calls ==> !w.calls[t].Marking?)
    && (step.Store? ==> step.t in w.calls && w.calls[step.t].Loaded? && w.calls[step.t].count >= w.appends)
  }

  ghost predicate OrderlyRun(w: World, policy: SyncPolicy, steps: seq<Step>)
    decreases steps
  {
    steps != [] ==>
      Enabled(w, steps[0]) && Orderly(w, steps[0]) && OrderlyRun(Next(w, policy, steps[0]), policy, steps[1..])
  }

  ghost predicate NoneSlipped(w: World) {
    && w.slipped == 0
    && forall t :: t in w.calls && w.calls[t].Marking? ==> w.calls[t].at == w.written
  }

  lemma OrderlyKeeps(w: World, policy: SyncPolicy, step: Step)
    requires NoneSlipped(w) && Enabled(w, step) && Orderly(w, step)
    ensures NoneSlipped(Next(w, policy, step))
  {
    hide AppendLog, SyncLog, RollLog, CloseLog;
  }

  lemma {:induction false} OrderlyRunKeeps(w: World, policy: SyncPolicy, k: nat, steps: seq<Step>, v: World)
    requires NoneSlipped(w) && Reaches(w, policy, k, steps, v) && OrderlyRun(w, policy, steps)
    ensures NoneSlipped(v)
    decreases steps
  {
    hide NoneSlipped, Next, Enabled, Admitted, Orderly;
    if steps == [] {
    } else {
      OrderlyKeeps(w, policy, steps[0]);
      OrderlyRunKeeps(Next(w, policy, steps[0]), policy, k, steps[1..], v);
    }
  }

  /**
   The bound for any overlap. Whatever calls, explicit syncs, rolls and closes
   interleave, once no call is in flight fewer than n records are unsynced
   besides those carried in and those that slipped the count; and a power cut
   then loses fewer than that.
   */
  lemma AnyOverlapBound(start: World, policy: SyncPolicy, k: nat, steps: seq<Step>, w: World, n: int, carried: nat,
                        cut: nat, maxBytes: int)
    requires policy.records == Some(n) && n >= 1
    requires Opened(start, carried) && Reaches(start, policy, k, steps, w) && Quiet(w)
    requires w.log.segs != [] && Tail(w.log).synced <= cut <= Position(Tail(w.log)) && ValidLimit(maxBytes)
    ensures LogInv(w.log) && Unsynced(w.log) < carried + n + w.slipped
    ensures var reopened := OpenLog(CrashFiles(w.log, cut), Bases(w.log.segs), maxBytes);
            && reopened.Ok? && AllRecords(reopened.value.segs) <= AllRecords(w.log.segs)
            && |AllRecords(w.log.segs)| - |AllRecords(reopened.value.segs)| < carried + n + w.slipped
  {
    hide LogInv, Unsynced, OpenLog, CrashFiles, Position, Reaches;
    OpenedInv(start, n, carried);
    RunKeeps(start, policy, k, steps, w, n, carried);
    QuietBound(w, n, carried);
    CutBound(w.log, carried + n + w.slipped, cut, maxBytes);
  }

  /** And in an orderly run none slipped: the bound of the policy holds for any number of overlapping calls. */
  lemma OrderlyOverlapBound(start: World, policy: SyncPolicy, k: nat, steps: seq<Step>, w: World, n: int, carried: nat,
                            cut: nat, maxBytes: int)
    requires policy.records == Some(n) && n >= 1
    requires Opened(start, carried) && Reaches(start, policy, k, steps, w) && Quiet(w) && OrderlyRun(start, policy, steps)
    requires w.log.segs != [] && Tail(w.log).synced <= cut <= Position(Tail(w.log)) && ValidLimit(maxBytes)
    ensures LogInv(w.log) && Unsynced(w.log) < carried + n
    ensures var reopened := OpenLog(CrashFiles(w.log, cut), Bases(w.log.segs), maxBytes);
            && reopened.Ok? && AllRecords(reopened.value.segs) <= AllRecords(w.log.segs)
            && |AllRecords(w.log.segs)| - |AllRecords(reopened.value.segs)| < carried + n
  {
    hide LogInv, Unsynced, OpenLog, CrashFiles, Position, Reaches, OrderlyRun;
    assert NoneSlipped(start);
    OrderlyRunKeeps(start, policy, k, steps, w);
    AnyOverlapBound(start, policy, k, steps, w, n, carried, cut, maxBytes);
  }

  // ---------------------------------------------------- what callers are told

  /** The offset a call has for its record, once that is written. */
  function OffsetOf(c: Call): Option<int> {
    match c
    case Called(_, _, _) => None
    case Appended(o) => o
    case Loaded(o, _) => o
    case Counted(o) => o
    case Syncing(o) => o
    case Marking(o, _) => o
    case Done(Ok(o)) => o
    case Done(Err(_)) => None
  }

  /** The log holds, under this offset, the record asked for. */
  ghost predicate Held(log: LogState, asked: Asked, offset: int)
    requires log.segs != []
  {
    var at := offset - FirstOffset(log);
    && 0 <= at < |AllRecords(log.segs)|
    && AllRecords(log.segs)[at] == Record(offset, asked.timestamp, asked.key, asked.value)
  }

  ghost predicate CallTold(w: World, t: nat)
    requires w.log.segs != [] && t in w.calls
  {
    var c := w.calls[t];
    && (OffsetOf(c).Some? ==> t in w.asked && Held(w.log, w.asked[t], OffsetOf(c).value))
    && (c.Called? ==> t in w.asked && w.asked[t] == Asked(c.key, c.value, c.timestamp))
    && (t in w.asked && OffsetOf(c).None? ==> c.Called? || (c.Done? && c.result.Err?))
  }

  ghost predicate ToldInv(w: World) {
    && LogInv(w.log) && w.log.segs != []
    && (forall t :: t in w.asked ==> t in w.calls)
    && (forall t :: t in w.calls ==> CallTold(w, t))
    && (forall t, u :: t in w.calls && u in w.calls && t != u && OffsetOf(w.calls[t]).Some? && OffsetOf(w.calls[u]).Some? ==>
          OffsetOf(w.calls[t]) != OffsetOf(w.calls[u]))
  }

  /** No operation of the log moves a record. */
  ghost predicate Extends(log: LogState, more: LogState) {
    && log.segs != [] && LogInv(more) && more.segs != [] && FirstOffset(more) == FirstOffset(log)
    && AllRecords(log.segs) <= AllRecords(more.segs)
  }

  lemma AppendExtends(log: LogState, key: Option<seq<byte>>, value: Option<seq<byte>>, timestamp: int)
    requires LogInv(log)
    ensures Extends(log, AppendLog(log, key, value, timestamp).0)
  {
    hide AppendLog, FirstOffset, AllInv, AllIndexable, Linked, Sealed, AllRecords, Encodable;
    AppendOutcome(log, key, value, timestamp);
    var after := AppendLog(log, key, value, timestamp).0;
    assert FirstOffset(after) == FirstOffset(log);
    assert AllRecords(log.segs) <= AllRecords(after.segs);
  }

  lemma LogExtends(w: World, policy: SyncPolicy, step: Step)
    requires LogInv(w.log) && Enabled(w, step)
    ensures Extends(w.log, Next(w, policy, step).log)
  {
    hide AppendLog, SyncLog, RollLog, CloseLog, FirstOffset, AllInv, AllIndexable, Linked, Sealed, AllRecords;
    if step.Write? {
      AppendExtends(w.log, w.calls[step.t].key, w.calls[step.t].value, w.calls[step.t].timestamp);
    } else if step.Flush? || step.SyncNow? {
      SyncKeepsChain(w.log);
    } else if step.RollNow? {
      RollKeepsChain(w.log);
    } else if step.CloseNow? {
      CloseKeepsChain(w.log);
    } else {
      assert Next(w, policy, step).log == w.log;
    }
  }

  lemma StillHeld(log: LogState, more: LogState, asked: Asked, offset: int)
    requires Extends(log, more) && Held(log, asked, offset)
    ensures Held(more, asked, offset)
  {
    hide LogInv, FirstOffset, AllRecords;
  }

  /** The call that writes gets an offset that no record of the log had. */
  lemma WriteHeld(w: World, policy: SyncPolicy, t: nat)
    requires ToldInv(w) && Enabled(w, Write(t))
    ensures var v := Next(w, policy, Write(t)); var o := OffsetOf(v.calls[t]);
            && v.log.segs != [] && CallTold(v, t)
            && (o.Some? ==> o.value == FirstOffset(w.log) + |AllRecords(w.log.segs)|)
  {
    hide AppendLog, LogInv, FirstOffset, AllRecords, LogNext, Encodable;
    var c := w.calls[t];
    assert CallTold(w, t);
    AppendOutcome(w.log, c.key, c.value, c.timestamp);
    LogExtends(w, policy, Write(t));
    ChainNext(w.log);
  }

  /** What a step that writes nothing does to its call: the offset is kept, or given up for an error. */
  lemma ActorTold(w: World, policy: SyncPolicy, step: Step)
    requires ToldInv(w) && Enabled(w, step) && Moves(step) && !step.Write?
    ensures var v := Next(w, policy, step);
            && v.log.segs != [] && step.t in v.calls && CallTold(v, step.t)
            && (OffsetOf(v.calls[step.t]).Some? ==>
                  step.t in w.calls && OffsetOf(v.calls[step.t]) == OffsetOf(w.calls[step.t]))
  {
    hide SyncLog, LogInv, Extends, Held;
    LogExtends(w, policy, step);
    ExtendsNotEmpty(w.log, Next(w, policy, step).log);
    if step.t in w.calls {
      assert CallTold(w, step.t);
      if OffsetOf(w.calls[step.t]).Some? {
        StillHeld(w.log, Next(w, policy, step).log, w.asked[step.t], OffsetOf(w.calls[step.t]).value);
      }
    }
  }

  lemma ExtendsNotEmpty(log: LogState, more: LogState)
    requires Extends(log, more)
    ensures log.segs != [] && more.segs != [] && LogInv(more)
  {
    hide LogInv;
  }

  /** A step of a call, not of the log alone. */
  predicate Moves(step: Step) {
    !step.RollNow? && !step.SyncNow? && !step.CloseNow?
  }

  lemma OthersStay(w: World, policy: SyncPolicy, step: Step)
    requires Enabled(w, step)
    ensures var v := Next(w, policy, step);
            && (forall t :: t in w.calls && (Moves(step) ==> t != step.t) ==> t in v.calls && v.calls[t] == w.calls[t])
            && (forall t :: t in v.calls ==> t in w.calls || (Moves(step) && t == step.t))
            && (forall t :: t in w.asked ==> t in v.asked && ((step.Ask? && t == step.t) || v.asked[t] == w.asked[t]))
            && (forall t :: t in v.asked ==> t in w.asked || (step.Ask? && t == step.t))
  {
    hide AppendLog, SyncLog, RollLog, CloseLog;
  }

  lemma OtherTold(w: World, policy: SyncPolicy, step: Step, t: nat)
    requires ToldInv(w) && Enabled(w, step) && t in w.calls && (Moves(step) ==> t != step.t)
    ensures var v := Next(w, policy, step); v.log.segs != [] && t in v.calls && CallTold(v, t)
  {
    hide Next, Enabled, LogInv, Extends, Held;
    OthersStay(w, policy, step);
    LogExtends(w, policy, step);
    ExtendsNotEmpty(w.log, Next(w, policy, step).log);
    assert CallTold(w, t);
    if OffsetOf(w.calls[t]).Some? {
      StillHeld(w.log, Next(w, policy, step).log, w.asked[t], OffsetOf(w.calls[t]).value);
    }
  }

  lemma HeldBelow(w: World, t: nat)
    requires ToldInv(w) && t in w.calls && OffsetOf(w.calls[t]).Some?
    ensures OffsetOf(w.calls[t]).value < FirstOffset(w.log) + |AllRecords(w.log.segs)|
  {
    hide LogInv, FirstOffset, AllRecords;
    assert CallTold(w, t);
  }

  lemma StepTold(w: World, policy: SyncPolicy, step: Step)
    requires ToldInv(w) && Enabled(w, step)
    ensures ToldInv(Next(w, policy, step))
  {
    hide Next, LogInv, Extends, CallTold, FirstOffset, AllRecords;
    var v := Next(w, policy, step);
    LogExtends(w, policy, step);
    ExtendsNotEmpty(w.log, v.log);
    OthersStay(w, policy, step);
    if step.Write? {
      WriteHeld(w, policy, step.t);
    } else if Moves(step) {
      ActorTold(w, policy, step);
    }
    if Moves(step) {
      AskedCalled(w, policy, step);
    }
    forall t | t in v.calls
      ensures CallTold(v, t)
    {
      if !(Moves(step) && t == step.t) {
        OtherTold(w, policy, step, t);
      }
    }
    forall t | t in w.calls && OffsetOf(w.calls[t]).Some?
      ensures OffsetOf(w.calls[t]).value < FirstOffset(w.log) + |AllRecords(w.log.segs)|
    {
      HeldBelow(w, t);
    }
  }

  lemma AskedCalled(w: World, policy: SyncPolicy, step: Step)
    requires Enabled(w, step) && Moves(step)
    ensures step.t in Next(w, policy, step).calls
  {
    hide AppendLog, SyncLog;
  }

  /** Every append of the run is on record as it was asked. */
  ghost predicate AskedAs(w: World, steps: seq<Step>) {
    forall s :: s in steps && s.Ask? ==> s.t in w.asked && w.asked[s.t] == Asked(s.key, s.value, s.timestamp)
  }

  lemma {:induction false} RunTold(w: World, policy: SyncPolicy, k: nat, before: seq<Step>, steps: seq<Step>, v: World)
    requires ToldInv(w) && AskedAs(w, before) && Reaches(w, policy, k, steps, v)
    ensures ToldInv(v) && AskedAs(v, before + steps)
    decreases steps
  {
    hide ToldInv, Next, Enabled, Admitted, AskedAs;
    if steps == [] {
      assert before + [] == before;
    } else {
      StepTold(w, policy, steps[0]);
      StepAsked(w, policy, before, steps[0]);
      RunTold(Next(w, policy, steps[0]), policy, k, before + [steps[0]], steps[1..], v);
      assert before + [steps[0]] + steps[1..] == before + steps;
    }
  }

  lemma StepAsked(w: World, policy: SyncPolicy, before: seq<Step>, step: Step)
    requires ToldInv(w) && AskedAs(w, before) && Enabled(w, step)
    ensures AskedAs(Next(w, policy, step), before + [step])
  {
    hide LogInv, CallTold, AppendLog, SyncLog, RollLog, CloseLog;
  }

  /**
   What overlapping appends return. A call that returns an offset has its record,
   with the key, value and timestamp it was asked for, in the log under that
   offset; an append that returns without an error has one; and no two calls
   have the same.
   */
  lemma AppendsGet(start: World, policy: SyncPolicy, k: nat, steps: seq<Step>, w: World, carried: nat, t: nat,
                   key: Option<seq<byte>>, value: Option<seq<byte>>, timestamp: int)
    requires Opened(start, carried) && Reaches(start, policy, k, steps, w)
    requires Ask(t, key, value, timestamp) in steps && t in w.calls && w.calls[t].Done? && w.calls[t].result.Ok?
    ensures w.log.segs != [] && w.calls[t].result.value.Some?
    ensures var o := w.calls[t].result.value.value;
            && 0 <= o - FirstOffset(w.log) < |AllRecords(w.log.segs)|
            && AllRecords(w.log.segs)[o - FirstOffset(w.log)] == Record(o, timestamp, key, value)
            && forall u :: u in w.calls && u != t && w.calls[u].Done? ==> w.calls[u].result != w.calls[t].result
  {
    hide LogInv, Unsynced, FirstOffset, AllRecords, Reaches;
    RunTold(start, policy, k, [], steps, w);
    assert [] + steps == steps;
    assert CallTold(w, t);
  }

  /** A call raises exactly when its append to the log does, or its sync meets a closed tail: its record is then written all the same. */
  lemma CallsRaise(w: World, policy: SyncPolicy, step: Step, error: Error)
    requires LogInv(w.log) && Enabled(w, step) && Moves(step)
    ensures step.t in Next(w, policy, step).calls
    ensures Next(w, policy, step).calls[step.t] == Done(Err(error)) <==>
              || (step.Write? && AppendLog(w.log, w.calls[step.t].key, w.calls[step.t].value, w.calls[step.t].timestamp).1 == Err(error))
              || (step.Flush? && !Tail(w.log).open && error == ValueError)
    ensures AllRecords(Next(w, policy, step).log.segs) == AllRecords(w.log.segs)
            || (step.Write? && Next(w, policy, step).calls[step.t].Appended?)
  {
    hide AppendLog, LogInv, AllRecords, Encodable;
    if step.Write? {
      AppendOutcome(w.log, w.calls[step.t].key, w.calls[step.t].value, w.calls[step.t].timestamp);
    } else if step.Flush? {
      SyncKeepsChain(w.log);
    }
  }

  // ---------------------------------------------------------- exactly when

  /** Every unsynced record is counted or has yet to be. */
  ghost predicate Covered(w: World)
    requires w.log.segs != []
  {
    Unsynced(w.log) <= w.appends + |Waiting(w.calls)|
  }

  /** A reset that erases no unsynced record, and a store that overwrites none. */
  ghost predicate Safe(w: World, step: Step)
    requires Enabled(w, step)
  {
    match step
    case Mark(_) => Unsynced(w.log) <= |Waiting(w.calls)|
    case Store(t) => Unsynced(w.log) <= w.calls[t].count + |Waiting(w.calls)|
    case _ => true
  }

  /** The count stays right over a step exactly if the step is safe. */
  lemma CoveredIff(w: World, policy: SyncPolicy, step: Step)
    requires LogInv(w.log) && Enabled(w, step) && Covered(w)
    ensures var v := Next(w, policy, step);
            LogInv(v.log) && v.log.segs != [] && (Covered(v) <==> Safe(w, step))
  {
    hide LogInv, Unsynced, Waiting, AppendLog, SyncLog, RollLog, CloseLog;
    var v := Next(w, policy, step);
    if step.RollNow? || step.SyncNow? || step.CloseNow? {
      RollUnsynced(w.log);
      SyncUnsynced(w.log);
      CloseUnsynced(w.log);
    } else {
      WaitingWith(w.calls, step.t, v.calls[step.t]);
      if step.Write? {
        WriteUnsynced(w.log, w.calls[step.t].key, w.calls[step.t].value, w.calls[step.t].timestamp);
      } else if step.Flush? {
        SyncUnsynced(w.log);
      }
    }
  }

  ghost predicate SafeRun(w: World, policy: SyncPolicy, steps: seq<Step>)
    decreases steps
  {
    steps != [] ==> Enabled(w, steps[0]) && Safe(w, steps[0]) && SafeRun(Next(w, policy, steps[0]), policy, steps[1..])
  }

  ghost predicate CoveredRun(w: World, policy: SyncPolicy, steps: seq<Step>)
    decreases steps
  {
    && w.log.segs != [] && Covered(w)
    && (steps != [] ==> Enabled(w, steps[0]) && CoveredRun(Next(w, policy, steps[0]), policy, steps[1..]))
  }

  /** So over a run every unsynced record stays counted, or yet to be, exactly if each reset and each store is safe. */
  lemma {:induction false} CoveredRunIff(w: World, policy: SyncPolicy, k: nat, steps: seq<Step>, v: World)
    requires LogInv(w.log) && w.log.segs != [] && Covered(w) && Reaches(w, policy, k, steps, v)
    ensures CoveredRun(w, policy, steps) <==> SafeRun(w, policy, steps)
    decreases steps
  {
    hide LogInv, Covered, Next, Enabled, Admitted, Safe;
    if steps == [] {
    } else {
      CoveredIff(w, policy, steps[0]);
      if Safe(w, steps[0]) {
        CoveredRunIff(Next(w, policy, steps[0]), policy, k, steps[1..], v);
      } else {
        NotCovered(Next(w, policy, steps[0]), policy, steps[1..]);
      }
    }
  }

  lemma NotCovered(w: World, policy: SyncPolicy, steps: seq<Step>)
    requires w.log.segs != [] && !Covered(w)
    ensures !CoveredRun(w, policy, steps)
  {
    hide Covered;
  }
}
